/**
 The per-plan line queue: one item per line, everything else kept as it stands. Parsing is lossless,
 and the production check accepts a text exactly when its item lines are well formed and name
 different tasks.
 */
module QueueLine {
  import opened Basics
  import opened PyText
  import opened Seqs

  datatype Row = Row(task: string, values: seq<(string, string)>, tail: string, raw: string, strict: bool)

  /** A layout entry: a line kept as it is, or the number of a row. */
  datatype Entry = Raw(text: string) | Item(index: nat)

  datatype LineQueue = LineQueue(rows: seq<Row>, header: seq<string>, passthrough: seq<(nat, string)>, layout: seq<Entry>)

  const EMPTY := LineQueue([], [], [], [])

  // ----- one line

  predicate Skipped(line: string) {
    Strip(line) == [] || StartsWith(LStrip(line), "#")
  }

  predicate IsItem(raw: string) {
    !Skipped(RStripNewline(raw)) && Contains(RStripNewline(raw), " | ")
  }

  function TaskOf(raw: string): string {
    Strip(Split(RStripNewline(raw), " | ")[0])
  }

  /** The length of the run of blanks and tabs a text starts with. */
  function BlankRun(s: string): (n: nat)
    ensures n <= |s|
  {
    if s != [] && (s[0] == ' ' || s[0] == '\t') then 1 + BlankRun(s[1..]) else 0
  }

  /** The first place where two or more blanks are followed by text: what comes before, and the text. */
  function FindTail(value: string): Option<(string, string)> {
    if value == [] then None
    else if 2 <= BlankRun(value) < |value| && !IsSpace(value[BlankRun(value)]) then Some(([], value[BlankRun(value)..]))
    else
      match FindTail(value[1..])
      case None => None
      case Some(found) => Some(([value[0]] + found.0, found.1))
  }

  /** One field: free text, a pair that ends the row with free text, or a pair. */
  datatype Field = Text(tail: string) | Last(key: string, value: string, tail: string) | Pair(key: string, value: string)

  function FieldOf(field: string): Field {
    var i := Find(field, ":");
    if i < 0 then Text(field)
    else
      var key, value := Strip(field[..i]), field[i + 1..];
      match FindTail(value)
      case Some(found) => Last(key, Strip(found.0), found.1)
      case None => Pair(key, Strip(value))
  }

  /** The `key:value` fields up to the first that has no colon or carries free text, and that text. */
  function FieldsOf(fields: seq<string>): (seq<(string, string)>, string) {
    if fields == [] then ([], [])
    else
      match FieldOf(fields[0])
      case Text(tail) => ([], tail)
      case Last(key, value, tail) => ([(key, value)], tail)
      case Pair(key, value) =>
        var rest := FieldsOf(fields[1..]);
        ([(key, value)] + rest.0, rest.1)
  }

  /** The zeros of the decimal digits of Unicode 16.0; nine more digits follow each of them. */
  predicate IsZero(code: int) {
    code in {
      0x30, 0x660, 0x6F0, 0x7C0, 0x966, 0x9E6, 0xA66, 0xAE6, 0xB66, 0xBE6, 0xC66, 0xCE6, 0xD66, 0xDE6,
      0xE50, 0xED0, 0xF20, 0x1040, 0x1090, 0x17E0, 0x1810, 0x1946, 0x19D0, 0x1A80, 0x1A90, 0x1B50,
      0x1BB0, 0x1C40, 0x1C50, 0xA620, 0xA8D0, 0xA900, 0xA9D0, 0xA9F0, 0xAA50, 0xABF0, 0xFF10, 0x104A0,
      0x10D30, 0x10D40, 0x11066, 0x110F0, 0x11136, 0x111D0, 0x112F0, 0x11450, 0x114D0, 0x11650,
      0x116C0, 0x116D0, 0x116DA, 0x11730, 0x118E0, 0x11950, 0x11BF0, 0x11C50, 0x11D50, 0x11DA0,
      0x11F50, 0x16130, 0x16A60, 0x16AC0, 0x16B50, 0x16D70, 0x1CCF0, 0x1D7CE, 0x1D7D8, 0x1D7E2,
      0x1D7EC, 0x1D7F6, 0x1E140, 0x1E2F0, 0x1E4F0, 0x1E5F1, 0x1E950, 0x1FBF0}
  }

  predicate IsDigitAbove(c: char, value: nat) {
    IsZero(c as int - value)
  }

  /** `\d+`. */
  predicate IsDigits(s: string) {
    s != [] && forall c :: c in s ==> exists value :: 0 <= value < 10 && IsDigitAbove(c, value)
  }

  /** The task of a line in the production format `task | fix:yes-or-no | esc:n | worktree:path`. */
  function StrictTask(line: string): Option<string> {
    var parts := Split(line, "|");
    if && |parts| == 4 && parts[0] != []
       && (Strip(parts[1]) == "fix:yes" || Strip(parts[1]) == "fix:no")
       && StartsWith(Strip(parts[2]), "esc:") && IsDigits(Strip(parts[2])[4..])
       && StartsWith(LStrip(parts[3]), "worktree:") && |LStrip(parts[3])| > 9
    then Some(Strip(parts[0]))
    else None
  }

  function RowOf(raw: string): Row {
    var line := RStripNewline(raw);
    var found := FieldsOf(Split(line, " | ")[1..]);
    Row(TaskOf(raw), found.0, found.1, raw, StrictTask(line).Some?)
  }

  // ----- parsing

  function AddEntry(q: LineQueue, raw: string, item: bool, row: Row): LineQueue {
    if item then q.(rows := q.rows + [row], layout := q.layout + [Item(|q.rows|)])
    else if q.rows != [] then q.(passthrough := q.passthrough + [(|q.rows|, raw)], layout := q.layout + [Raw(raw)])
    else q.(header := q.header + [raw], layout := q.layout + [Raw(raw)])
  }

  function Build(lines: seq<string>, item: string -> bool, row: string -> Row): LineQueue {
    if lines == [] then EMPTY
    else
      var raw := lines[|lines| - 1];
      AddEntry(Build(lines[..|lines| - 1], item, row), raw, item(raw), row(raw))
  }

  function Parse(text: string): LineQueue {
    Build(SplitLines(text), IsItem, RowOf)
  }

  method ReadFields(fields: seq<string>) returns (values: seq<(string, string)>, tail: string)
    ensures (values, tail) == FieldsOf(fields)
  {
    values, tail := [], "";
    var i := 0;
    assert fields[0..] == fields;
    while i < |fields|
      invariant i <= |fields| && tail == ""
      invariant FieldsOf(fields).0 == values + FieldsOf(fields[i..]).0
      invariant FieldsOf(fields).1 == FieldsOf(fields[i..]).1
    {
      assert fields[i..][1..] == fields[i + 1..];
      match FieldOf(fields[i]) {
        case Text(text) =>
          tail := text;
          assert values + [] == values;
          return;
        case Last(key, value, text) =>
          values, tail := values + [(key, value)], text;
          return;
        case Pair(key, value) =>
          Seqs.Associative(values, [(key, value)], FieldsOf(fields[i + 1..]).0);
          values := values + [(key, value)];
      }
      i := i + 1;
    }
    assert fields[i..] == [] && values + [] == values;
  }

  method ReadRow(line: string, raw: string) returns (row: Row)
    requires line == RStripNewline(raw)
    ensures row == RowOf(raw)
  {
    var fields := Split(line, " | ");
    var values, tail := ReadFields(fields[1..]);
    row := Row(Strip(fields[0]), values, tail, raw, StrictTask(line).Some?);
  }

  lemma BuildNext(lines: seq<string>, i: nat, item: string -> bool, row: string -> Row)
    requires i < |lines|
    ensures Build(lines[..i + 1], item, row) == AddEntry(Build(lines[..i], item, row), lines[i], item(lines[i]), row(lines[i]))
  {
    assert lines[..i + 1][..i] == lines[..i];
  }

  /** The row of an item line, and `None` for a line kept as it is. */
  method ReadLine(raw: string) returns (row: Option<Row>)
    ensures row.Some? <==> IsItem(raw)
    ensures row.Some? ==> row.value == RowOf(raw)
  {
    var line := RStripNewline(raw);
    if Strip(line) == [] || StartsWith(LStrip(line), "#") || !Contains(line, " | ") {
      return None;
    }
    var found := ReadRow(line, raw);
    row := Some(found);
  }

  method ParseLineQueue(text: string) returns (q: LineQueue)
    ensures q == Parse(text)
  {
    var rows: seq<Row>, header: seq<string>, passthrough: seq<(nat, string)>, layout: seq<Entry> := [], [], [], [];
    var sawRow := false;
    var lines := SplitLines(text);
    for i := 0 to |lines|
      invariant LineQueue(rows, header, passthrough, layout) == Build(lines[..i], IsItem, RowOf)
      invariant sawRow == (rows != [])
    {
      var raw := lines[i];
      BuildNext(lines, i, IsItem, RowOf);
      var row := ReadLine(raw);
      if row.None? {
        if sawRow {
          passthrough := passthrough + [(|rows|, raw)];
        } else {
          header := header + [raw];
        }
        layout := layout + [Raw(raw)];
      } else {
        rows := rows + [row.value];
        layout := layout + [Item(|rows| - 1)];
        sawRow := true;
      }
    }
    assert lines[..|lines|] == lines;
    q := LineQueue(rows, header, passthrough, layout);
  }

  /** Entry `k` of the layout is line `k`. */
  ghost predicate LaidOut(q: LineQueue, lines: seq<string>) {
    |q.layout| == |lines| && forall k :: 0 <= k < |lines| ==> EntryOf(q, lines[k], q.layout[k])
  }

  ghost predicate EntryOf(q: LineQueue, line: string, entry: Entry) {
    match entry
    case Raw(text) => text == line
    case Item(j) => j < |q.rows| && q.rows[j].raw == line
  }

  lemma AddEntryLaysOut(q: LineQueue, lines: seq<string>, raw: string, item: bool, row: Row)
    requires LaidOut(q, lines) && row.raw == raw
    ensures LaidOut(AddEntry(q, raw, item, row), lines + [raw])
  {
    var next := AddEntry(q, raw, item, row);
    forall k | 0 <= k < |lines| ensures EntryOf(next, lines[k], next.layout[k]) {
      assert next.layout[k] == q.layout[k] && EntryOf(q, lines[k], q.layout[k]);
    }
  }

  lemma {:induction false} BuildLaysOut(lines: seq<string>, item: string -> bool, row: string -> Row)
    requires forall raw :: row(raw).raw == raw
    ensures LaidOut(Build(lines, item, row), lines)
  {
    if lines != [] {
      var rest, raw := lines[..|lines| - 1], lines[|lines| - 1];
      BuildLaysOut(rest, item, row);
      AddEntryLaysOut(Build(rest, item, row), rest, raw, item(raw), row(raw));
      SplitLast(lines);
    }
  }

  lemma ParseLaysOut(text: string)
    ensures LaidOut(Parse(text), SplitLines(text))
  {
    BuildLaysOut(SplitLines(text), IsItem, RowOf);
  }

  /** Row `j` comes from line `at[j]`, and rows come in the order of their lines. */
  ghost predicate RowsAt(q: LineQueue, lines: seq<string>, at: seq<nat>) {
    && |at| == |q.rows|
    && (forall j :: 0 <= j < |at| ==> at[j] < |lines| && lines[at[j]] == q.rows[j].raw)
    && (forall i, j :: 0 <= i < j < |at| ==> at[i] < at[j])
  }

  lemma {:induction false} BuildRows(lines: seq<string>, item: string -> bool, row: string -> Row)
    requires forall raw :: row(raw).raw == raw
    ensures forall r :: r in Build(lines, item, row).rows ==> item(r.raw) && r == row(r.raw)
  {
    if lines != [] { BuildRows(lines[..|lines| - 1], item, row); }
  }

  lemma AddEntryRowsAt(q: LineQueue, lines: seq<string>, at: seq<nat>, raw: string, item: bool, row: Row)
    requires RowsAt(q, lines, at) && row.raw == raw
    ensures RowsAt(AddEntry(q, raw, item, row), lines + [raw], if item then at + [|lines|] else at)
  {
  }

  lemma {:induction false} BuildRowsAt(lines: seq<string>, item: string -> bool, row: string -> Row) returns (at: seq<nat>)
    requires forall raw :: row(raw).raw == raw
    ensures RowsAt(Build(lines, item, row), lines, at)
  {
    if lines == [] { return []; }
    var rest, raw := lines[..|lines| - 1], lines[|lines| - 1];
    var before := BuildRowsAt(rest, item, row);
    AddEntryRowsAt(Build(rest, item, row), rest, before, raw, item(raw), row(raw));
    SplitLast(lines);
    at := if item(raw) then before + [|rest|] else before;
  }

  /** A row comes from an item line and reads what that line says. */
  lemma ParsedRows(text: string) returns (at: seq<nat>)
    ensures RowsAt(Parse(text), SplitLines(text), at)
    ensures forall row :: row in Parse(text).rows ==> IsItem(row.raw) && row == RowOf(row.raw)
  {
    BuildRows(SplitLines(text), IsItem, RowOf);
    at := BuildRowsAt(SplitLines(text), IsItem, RowOf);
  }

  // ----- rendering

  /** `" | ".join` of the task and its fields, the free text after two blanks. */
  function Canonical(row: Row): string {
    Join([row.task] + WithTail(Pairs(row.values), row.tail), " | ") + "\n"
  }

  function Pairs(values: seq<(string, string)>): (r: seq<string>)
    ensures |r| == |values|
  {
    if values == [] then [] else Pairs(values[..|values| - 1]) + [values[|values| - 1].0 + ":" + values[|values| - 1].1]
  }

  function WithTail(fields: seq<string>, tail: string): seq<string> {
    if tail == [] then fields
    else if fields == [] then [tail]
    else fields[|fields| - 1 := fields[|fields| - 1] + "  " + tail]
  }

  function Piece(q: LineQueue, entry: Entry): string
    requires entry.Item? ==> entry.index < |q.rows|
  {
    match entry
    case Raw(text) => text
    case Item(j) => if q.rows[j].raw != [] then q.rows[j].raw else Canonical(q.rows[j])
  }

  ghost predicate Renderable(q: LineQueue) {
    forall e :: e in q.layout && e.Item? ==> e.index < |q.rows|
  }

  function Pieces(q: LineQueue, layout: seq<Entry>): (r: seq<string>)
    requires forall e :: e in layout && e.Item? ==> e.index < |q.rows|
    ensures |r| == |layout|
    ensures forall k :: 0 <= k < |layout| ==> r[k] == Piece(q, layout[k])
  {
    if layout == [] then [] else Pieces(q, layout[..|layout| - 1]) + [Piece(q, layout[|layout| - 1])]
  }

  function Render(q: LineQueue): string
    requires Renderable(q)
  {
    Concat(Pieces(q, q.layout))
  }

  method RenderLineQueue(q: LineQueue) returns (text: string)
    requires Renderable(q)
    ensures text == Render(q)
  {
    var output: seq<string> := [];
    for k := 0 to |q.layout|
      invariant output == Pieces(q, q.layout[..k])
    {
      assert q.layout[..k + 1][..k] == q.layout[..k];
      var entry := q.layout[k];
      if entry.Raw? {
        output := output + [entry.text];
      } else if q.rows[entry.index].raw != [] {
        output := output + [q.rows[entry.index].raw];
      } else {
        var row := q.rows[entry.index];
        var fields := Pairs(row.values);
        if row.tail != [] {
          if fields != [] {
            fields := fields[|fields| - 1 := fields[|fields| - 1] + "  " + row.tail];
          } else {
            fields := fields + [row.tail];
          }
        }
        assert fields == WithTail(Pairs(row.values), row.tail);
        output := output + [Join([row.task] + fields, " | ") + "\n"];
      }
    }
    assert q.layout[..|q.layout|] == q.layout;
    text := Concat(output);
  }

  /** Lossless: rendering what was parsed gives back every character of any text. */
  lemma RenderParse(text: string)
    ensures Renderable(Parse(text)) && Render(Parse(text)) == text
  {
    var lines, q := SplitLines(text), Parse(text);
    ParseLaysOut(text);
    forall k | 0 <= k < |lines| ensures Piece(q, q.layout[k]) == lines[k] {
      assert EntryOf(q, lines[k], q.layout[k]);
    }
    forall e | e in q.layout && e.Item? ensures e.index < |q.rows| {
      var k :| 0 <= k < |q.layout| && q.layout[k] == e;
      assert EntryOf(q, lines[k], e);
    }
    assert Pieces(q, q.layout) == lines;
    LinesConcat(text);
  }

  // ----- the production check

  datatype FormatError = Malformed(line: nat) | Duplicate(line: nat, task: string)

  datatype Verdict = Skip | Bad | Names(task: string)

  /** What the check makes of one line, its terminator gone. */
  function VerdictOf(line: string): Verdict {
    if Skipped(line) then Skip
    else
      match StrictTask(line)
      case None => Bad
      case Some(task) => Names(task)
  }

  function ValidateFrom(verdicts: seq<Verdict>, n: nat, seen: set<string>): Result<(), FormatError> {
    if verdicts == [] then Ok(())
    else
      match verdicts[0]
      case Skip => ValidateFrom(verdicts[1..], n + 1, seen)
      case Bad => Err(Malformed(n))
      case Names(task) =>
        if task in seen then Err(Duplicate(n, task)) else ValidateFrom(verdicts[1..], n + 1, seen + {task})
  }

  function Verdicts(text: string): (r: seq<Verdict>) {
    var lines := SplitLines(text);
    seq(|lines|, k requires 0 <= k < |lines| => VerdictOf(Chop(lines[k])))
  }

  function Validate(text: string): Result<(), FormatError> {
    ValidateFrom(Verdicts(text), 1, {})
  }

  method ValidateLineQueue(text: string) returns (r: Result<(), FormatError>)
    ensures r == Validate(text)
  {
    var seen: set<string> := {};
    var lines := SplitLines(text);
    ghost var verdicts := Verdicts(text);
    assert verdicts[0..] == verdicts;
    for i := 0 to |lines|
      invariant Validate(text) == ValidateFrom(verdicts[i..], i + 1, seen)
    {
      var line := Chop(lines[i]);
      assert verdicts[i..][1..] == verdicts[i + 1..];
      assert verdicts[i] == VerdictOf(line);
      if Strip(line) == [] || StartsWith(LStrip(line), "#") {
        continue;
      }
      var found := StrictTask(line);
      if found.None? {
        return Err(Malformed(i + 1));
      }
      if found.value in seen {
        return Err(Duplicate(i + 1, found.value));
      }
      seen := seen + {found.value};
    }
    r := Ok(());
  }

  /** Line `k` is well formed, and neither `seen` nor an earlier line names its task. */
  ghost predicate LineFine(verdicts: seq<Verdict>, k: nat, seen: set<string>)
    requires k < |verdicts|
  {
    match verdicts[k]
    case Skip => true
    case Bad => false
    case Names(task) => task !in seen && verdicts[k] !in verdicts[..k]
  }

  lemma FineAfterFirst(verdicts: seq<Verdict>, k: nat, seen: set<string>)
    requires k + 1 < |verdicts| && !verdicts[0].Bad?
    ensures LineFine(verdicts, k + 1, seen) <==>
              LineFine(verdicts[1..], k, if verdicts[0].Skip? then seen else seen + {verdicts[0].task})
  {
    assert verdicts[..k + 1] == [verdicts[0]] + verdicts[1..][..k];
  }

  lemma {:induction false} ValidateFromIff(verdicts: seq<Verdict>, n: nat, seen: set<string>)
    ensures ValidateFrom(verdicts, n, seen).Ok? <==> forall k :: 0 <= k < |verdicts| ==> LineFine(verdicts, k, seen)
  {
    if verdicts != [] {
      var first := verdicts[0];
      if first.Bad? || (first.Names? && first.task in seen) {
        assert !LineFine(verdicts, 0, seen);
      } else {
        var more := if first.Skip? then seen else seen + {first.task};
        ValidateFromIff(verdicts[1..], n + 1, more);
        assert LineFine(verdicts, 0, seen);
        forall k | 0 <= k < |verdicts| - 1 ensures LineFine(verdicts[1..], k, more) <==> LineFine(verdicts, k + 1, seen) {
          FineAfterFirst(verdicts, k, seen);
        }
        assert forall k :: 1 <= k < |verdicts| ==> (LineFine(verdicts, k, seen) <==> LineFine(verdicts[1..], k - 1, more));
      }
    }
  }

  /** The check passes exactly when every item line is well formed and no two name the same task. */
  lemma ValidateIff(text: string)
    ensures Validate(text).Ok? <==> Fine(Verdicts(text))
  {
    ValidateFromIff(Verdicts(text), 1, {});
    AllFineIff(Verdicts(text));
  }

  ghost predicate Fine(verdicts: seq<Verdict>) {
    Bad !in verdicts && forall i, j :: 0 <= i < j < |verdicts| && verdicts[i].Names? ==> verdicts[i] != verdicts[j]
  }

  lemma AllFineIff(verdicts: seq<Verdict>)
    ensures (forall k :: 0 <= k < |verdicts| ==> LineFine(verdicts, k, {})) <==> Fine(verdicts)
  {
    if forall k :: 0 <= k < |verdicts| ==> LineFine(verdicts, k, {}) {
      forall i, j | 0 <= i < j < |verdicts| && verdicts[i].Names? ensures verdicts[i] != verdicts[j] {
        assert LineFine(verdicts, j, {}) && verdicts[..j][i] == verdicts[i];
      }
      forall k | 0 <= k < |verdicts| ensures verdicts[k] != Bad {
        assert LineFine(verdicts, k, {});
      }
    }
  }

  // ----- two readings of the task of a line

  /** What stands before the first bar, trimmed. */
  function KeyOf(s: string): string
    requires Contains(s, "|")
  {
    Strip(s[..Find(s, "|")])
  }

  /** What the production check makes of the task the parser reads. */
  function TaskKey(task: string): string {
    if Contains(task, "|") then KeyOf(task) else task
  }

  lemma {:induction false} ShiftFind(left: string, s: string, sep: char)
    requires sep !in left
    ensures Find(left + s, [sep]) == if Find(s, [sep]) < 0 then -1 else |left| + Find(s, [sep])
  {
    if left == [] {
      assert left + s == s;
    } else {
      assert (left + s)[1..] == left[1..] + s;
      assert !([sep] <= left + s) by { assert (left + s)[0] == left[0]; }
      ShiftFind(left[1..], s, sep);
    }
  }

  lemma CutIgnoresStart(left: string, s: string)
    requires forall c :: c in left ==> IsSpace(c)
    ensures Contains(left + s, "|") <==> Contains(s, "|")
    ensures Contains(s, "|") ==> KeyOf(left + s) == KeyOf(s)
  {
    ShiftFind(left, s, '|');
    if Contains(s, "|") {
      var i := Find(s, "|");
      assert (left + s)[..|left| + i] == left + s[..i];
      StripIgnoresStart(left, s[..i]);
    }
  }

  lemma CutIgnoresEnd(s: string, right: string)
    requires forall c :: c in right ==> IsSpace(c)
    ensures Contains(s + right, "|") <==> Contains(s, "|")
    ensures Contains(s, "|") ==> KeyOf(s + right) == KeyOf(s)
  {
    FindBeforeEnd(s, right, '|');
    if Contains(s, "|") { assert (s + right)[..Find(s, "|")] == s[..Find(s, "|")]; }
  }

  /** Cutting at the first bar and trimming: it does not matter which comes first. */
  lemma CutThenStrip(s: string)
    ensures Contains(Strip(s), "|") <==> Contains(s, "|")
    ensures Contains(s, "|") ==> KeyOf(s) == TaskKey(Strip(s))
  {
    var left := LStripCuts(s);
    CutIgnoresStart(left, LStrip(s));
    var right := RStripCuts(LStrip(s));
    CutIgnoresEnd(Strip(s), right);
  }

  lemma FindBeforeEnd(s: string, right: string, sep: char)
    requires sep !in right
    ensures Find(s + right, [sep]) == Find(s, [sep])
  {
    FindInPrefix(s + right, [sep], |s|);
    assert (s + right)[..|s|] == s;
    FoundChar(s + right, sep);
  }

  lemma FoundChar(s: string, sep: char)
    ensures Contains(s, [sep]) ==> s[Find(s, [sep])] == sep
  {
    if Contains(s, [sep]) {
      var i := Find(s, [sep]);
      Found(s, [sep]);
      assert s[i..i + 1][0] == s[i];
    }
  }

  lemma FirstOfLine(raw: string, sep: string)
    requires sep != [] && Contains(RStripNewline(raw), sep)
    ensures var i := Find(raw, sep);
      && 0 <= i && i + |sep| <= |raw| && raw[i..i + |sep|] == sep
      && Split(RStripNewline(raw), sep)[0] == raw[..i]
  {
    var line := RStripNewline(raw);
    assert line == raw[..|line|];
    FirstPart(raw, |line|, sep);
  }

  lemma StrictTaskIsCut(line: string)
    requires StrictTask(line).Some?
    ensures Contains(line, "|") && StrictTask(line).value == KeyOf(line)
  {
  }

  lemma FirstBar(before: string, after: string)
    ensures Find(before + " |" + after, "|") == if Contains(before, "|") then Find(before, "|") else |before| + 1
  {
    var s := before + " |" + after;
    assert s[|before| + 1..|before| + 2] == "|";
    FindFirst(s, "|", |before| + 1);
    FindInPrefix(s, "|", |before|);
    assert s[..|before|] == before;
    FoundChar(s, '|');
  }

  /** A text that goes on with ` |` is cut at a bar of its own, or at that one. */
  lemma CutAtSeparator(before: string, after: string)
    ensures Contains(before + " |" + after, "|")
    ensures KeyOf(before + " |" + after) == TaskKey(Strip(before))
  {
    var s := before + " |" + after;
    FirstBar(before, after);
    CutThenStrip(before);
    if Contains(before, "|") {
      assert s[..Find(s, "|")] == before[..Find(before, "|")];
    } else {
      assert s[..|before| + 1] == before + " ";
      StripIgnoresEnd(before, " ");
    }
  }

  lemma ChopKeeps(raw: string, i: nat)
    requires i + 3 <= |raw| && raw[i..i + 3] == " | "
    ensures i + 3 <= |Chop(raw)| && Chop(raw) == raw[..i] + " |" + Chop(raw)[i + 2..]
  {
    var found := raw[i..i + 3];
    assert found[0] == raw[i] && found[1] == raw[i + 1] && found[2] == raw[i + 2];
    assert !IsBreak(raw[i + 2]);
  }

  /** The task the check reads off an item line depends only on the task the parser reads. */
  lemma StrictKey(raw: string)
    requires IsItem(raw) && StrictTask(Chop(raw)).Some?
    ensures StrictTask(Chop(raw)).value == TaskKey(TaskOf(raw))
  {
    FirstOfLine(raw, " | ");
    var i := Find(raw, " | ");
    ChopKeeps(raw, i);
    CutAtSeparator(raw[..i], Chop(raw)[i + 2..]);
    StrictTaskIsCut(Chop(raw));
  }

  /** A line the parser reads as an item is never skipped by the check. */
  lemma ItemNotSkipped(raw: string)
    ensures Skipped(Chop(raw)) <==> Skipped(RStripNewline(raw))
  {
    NewlineIgnored(raw);
    ChopIgnored(raw);
  }

  lemma NewlineIgnored(raw: string)
    ensures Skipped(raw) <==> Skipped(RStripNewline(raw))
  {
    NewlinesAreSpace(raw);
    SkippedIgnoresEnd(raw, |RStripNewline(raw)|);
    assert RStripNewline(raw) == raw[..|RStripNewline(raw)|];
  }

  lemma ChopIgnored(raw: string)
    ensures Skipped(raw) <==> Skipped(Chop(raw))
  {
    BreaksAreSpace(raw, |Chop(raw)|);
    SkippedIgnoresEnd(raw, |Chop(raw)|);
    assert Chop(raw) == raw[..|Chop(raw)|];
  }

  lemma SkippedIgnoresEnd(s: string, n: nat)
    requires n <= |s| && forall c :: c in s[n..] ==> IsSpace(c)
    ensures Skipped(s) <==> Skipped(s[..n])
  {
    var start, right := s[..n], s[n..];
    assert start + right == s;
    StripIgnoresEnd(start, right);
    LStripAppend(start, right);
  }

  // ----- duplicates

  ghost predicate HasDuplicates(q: LineQueue) {
    exists i, j :: 0 <= i < j < |q.rows| && q.rows[i].task == q.rows[j].task
  }

  /** A text in which the parser reads one task twice never passes the production check. */
  lemma DuplicatesRaise(text: string)
    requires HasDuplicates(Parse(text))
    ensures Validate(text).Err?
  {
    var lines, q, verdicts := SplitLines(text), Parse(text), Verdicts(text);
    var i, j :| 0 <= i < j < |q.rows| && q.rows[i].task == q.rows[j].task;
    var at := ParsedRows(text);
    ValidateIff(text);
    SameTaskClash(q.rows[i].raw, q.rows[j].raw);
    assert at[i] < at[j] && verdicts[at[i]] == VerdictOf(Chop(lines[at[i]])) && verdicts[at[j]] == VerdictOf(Chop(lines[at[j]]));
  }

  lemma SameTaskClash(a: string, b: string)
    requires IsItem(a) && IsItem(b) && TaskOf(a) == TaskOf(b)
    ensures var x, y := VerdictOf(Chop(a)), VerdictOf(Chop(b));
      x.Bad? || y.Bad? || (x.Names? && x == y)
  {
    ItemNotSkipped(a);
    ItemNotSkipped(b);
    if StrictTask(Chop(a)).Some? && StrictTask(Chop(b)).Some? {
      StrictKey(a);
      StrictKey(b);
    }
  }
}

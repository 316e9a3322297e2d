/**
 The markdown queue table. A row is split at the pipes outside backtick spans; rendering writes cells
 back between pipes and keeps a row that was not edited exactly as it stood.
 */
module QueueMd {
  import opened Basics
  import opened PyText
  import opened Seqs

  // ----- splitting a row

  function RemovePrefix(s: string): string {
    if s != [] && s[0] == '|' then s[1..] else s
  }

  function RemoveSuffix(s: string): string {
    if s != [] && s[|s| - 1] == '|' then s[..|s| - 1] else s
  }

  /** What is between the outer pipes of a row. */
  function Inside(line: string): string {
    RemoveSuffix(RemovePrefix(Strip(line)))
  }

  function Toggled(c: char, ticks: bool): bool {
    if c == '`' then !ticks else ticks
  }

  /** The cells of the rest of a row, given the cell so far and whether a backtick span is open. */
  function Scan(text: string, cell: string, ticks: bool): (cells: seq<string>)
    ensures cells != []
    decreases |text|
  {
    if text == [] then [Strip(cell)]
    else
      var t := Toggled(text[0], ticks);
      if text[0] == '|' && !t then [Strip(cell)] + Scan(text[1..], [], t) else Scan(text[1..], cell + [text[0]], t)
  }

  function SplitRow(line: string): (cells: seq<string>)
    ensures cells != []
  {
    Scan(Inside(line), [], false)
  }

  method SplitTableRow(line: string) returns (cells: seq<string>)
    ensures cells == SplitRow(line)
  {
    var text := RemoveSuffix(RemovePrefix(Strip(line)));
    cells := [];
    var cell: string := [];
    var ticks := false;
    assert text[0..] == text;
    for i := 0 to |text|
      invariant cells + Scan(text[i..], cell, ticks) == SplitRow(line)
    {
      assert text[i..][1..] == text[i + 1..];
      if text[i] == '`' {
        ticks := !ticks;
      }
      if text[i] == '|' && !ticks {
        Seqs.Associative(cells, [Strip(cell)], Scan(text[i + 1..], [], ticks));
        cells := cells + [Strip(cell)];
        cell := [];
      } else {
        cell := cell + [text[i]];
      }
    }
    cells := cells + [Strip(cell)];
  }

  // ----- what a cell may hold

  /** Whether a backtick span is open after `s`. */
  function Ticks(s: string, ticks: bool): bool {
    if s == [] then ticks else Ticks(s[1..], Toggled(s[0], ticks))
  }

  /** No pipe outside a backtick span. */
  predicate NoBarePipe(s: string, ticks: bool) {
    s == [] || (!(s[0] == '|' && !Toggled(s[0], ticks)) && NoBarePipe(s[1..], Toggled(s[0], ticks)))
  }

  ghost predicate CellFine(cell: string, last: bool) {
    Trimmed(cell) && NoBarePipe(cell, false) && (last || !Ticks(cell, false))
  }

  /** Trimmed cells with pipes only inside backtick spans, every span but one in the last cell closed. */
  ghost predicate WellFormed(cells: seq<string>) {
    cells != [] && forall i :: 0 <= i < |cells| ==> CellFine(cells[i], i == |cells| - 1)
  }

  lemma {:induction false} TicksAppend(a: string, b: string, ticks: bool)
    ensures Ticks(a + b, ticks) == Ticks(b, Ticks(a, ticks))
    ensures NoBarePipe(a + b, ticks) <==> NoBarePipe(a, ticks) && NoBarePipe(b, Ticks(a, ticks))
  {
    if a == [] {
      assert a + b == b;
    } else {
      assert (a + b)[1..] == a[1..] + b;
      TicksAppend(a[1..], b, Toggled(a[0], ticks));
    }
  }

  lemma {:induction false} SpacesScanAway(s: string, ticks: bool)
    requires forall c :: c in s ==> IsSpace(c)
    ensures Ticks(s, ticks) == ticks && NoBarePipe(s, ticks)
  {
    if s != [] {
      assert s[0] in s;
      SpacesScanAway(s[1..], ticks);
    }
  }

  /** Trimming a cell changes neither where its spans open nor its pipes. */
  lemma StripKeepsCell(s: string)
    ensures Ticks(Strip(s), false) == Ticks(s, false)
    ensures NoBarePipe(s, false) ==> NoBarePipe(Strip(s), false)
  {
    var left := LStripCuts(s);
    var right := RStripCuts(LStrip(s));
    var core := Strip(s);
    TicksAppend(left, LStrip(s), false);
    TicksAppend(core, right, false);
    SpacesScanAway(left, false);
    SpacesScanAway(right, Ticks(core, false));
  }

  lemma StripKeepsPipes(s: string)
    ensures multiset(Strip(s))['|'] == multiset(s)['|']
  {
    var left := LStripCuts(s);
    var right := RStripCuts(LStrip(s));
    assert '|' !in left && '|' !in right;
    assert multiset(s) == multiset(left) + multiset(LStrip(s));
    assert multiset(LStrip(s)) == multiset(Strip(s)) + multiset(right);
  }

  /** Every output of a scan is well formed. */
  lemma {:induction false} ScanWellFormed(text: string, cell: string, ticks: bool)
    requires NoBarePipe(cell, false) && Ticks(cell, false) == ticks
    ensures WellFormed(Scan(text, cell, ticks))
    decreases |text|
  {
    StripKeepsCell(cell);
    StripTrims(cell);
    if text != [] {
      var t := Toggled(text[0], ticks);
      if text[0] == '|' && !t {
        ScanWellFormed(text[1..], [], t);
      } else {
        TicksAppend(cell, [text[0]], false);
        ScanWellFormed(text[1..], cell + [text[0]], t);
      }
    }
  }

  lemma SplitWellFormed(line: string)
    ensures WellFormed(SplitRow(line))
  {
    ScanWellFormed(Inside(line), [], false);
  }

  // ----- rendering cells

  function RenderCells(cells: seq<string>, newline: string): string {
    "| " + Join(cells, " | ") + " |" + newline
  }

  ghost predicate Blank(s: string) {
    forall c :: c in s ==> IsSpace(c)
  }

  lemma RenderedInside(cells: seq<string>, newline: string)
    requires Blank(newline)
    ensures Inside(RenderCells(cells, newline)) == " " + Join(cells, " | ") + " "
  {
    var middle := " " + Join(cells, " | ") + " ";
    var text := "|" + middle + "|";
    assert RenderCells(cells, newline) == text + newline;
    StripIgnoresEnd(text, newline);
    StripTrims(text);
    assert RemovePrefix(text) == middle + "|";
    assert RemoveSuffix(middle + "|") == middle;
  }

  /** A piece without bare pipes goes into the current cell as a whole. */
  lemma {:induction false} ScanPiece(piece: string, rest: string, cell: string, ticks: bool)
    requires NoBarePipe(piece, ticks)
    ensures Scan(piece + rest, cell, ticks) == Scan(rest, cell + piece, Ticks(piece, ticks))
    decreases |piece|
  {
    if piece == [] {
      assert piece + rest == rest && cell + piece == cell;
    } else {
      assert (piece + rest)[1..] == piece[1..] + rest;
      assert (cell + [piece[0]]) + piece[1..] == cell + piece;
      ScanPiece(piece[1..], rest, cell + [piece[0]], Toggled(piece[0], ticks));
    }
  }

  lemma PaddedCell(cell: string)
    ensures Ticks(" " + cell + " ", false) == Ticks(cell, false)
    ensures NoBarePipe(cell, false) ==> NoBarePipe(" " + cell + " ", false)
    ensures Trimmed(cell) ==> Strip(" " + cell + " ") == cell
  {
    TicksAppend(" ", cell, false);
    TicksAppend(" " + cell, " ", false);
    if Trimmed(cell) { StripPadding(cell, " ", " "); }
  }

  lemma ScanLast(cell: string)
    requires CellFine(cell, true)
    ensures Scan(" " + cell + " ", [], false) == [cell]
  {
    PaddedCell(cell);
    ScanPiece(" " + cell + " ", [], [], false);
    assert (" " + cell + " ") + [] == " " + cell + " " == [] + (" " + cell + " ");
  }

  lemma ScanFirst(cell: string, rest: string)
    requires CellFine(cell, false)
    ensures Scan(" " + cell + " " + ("|" + rest), [], false) == [cell] + Scan(rest, [], false)
  {
    PaddedCell(cell);
    ScanPiece(" " + cell + " ", "|" + rest, [], false);
    assert [] + (" " + cell + " ") == " " + cell + " ";
    assert ("|" + rest)[1..] == rest;
  }

  lemma {:induction false} ScanJoined(cells: seq<string>)
    requires WellFormed(cells)
    ensures Scan(" " + Join(cells, " | ") + " ", [], false) == cells
    decreases |cells|
  {
    if |cells| == 1 {
      ScanLast(cells[0]);
    } else {
      var rest := cells[1..];
      forall i | 0 <= i < |rest| ensures CellFine(rest[i], i == |rest| - 1) {
        assert rest[i] == cells[i + 1] && CellFine(cells[i + 1], i + 1 == |cells| - 1);
      }
      ScanJoined(rest);
      assert CellFine(cells[0], false);
      ScanFirst(cells[0], " " + Join(rest, " | ") + " ");
      JoinedParts(cells);
    }
  }

  lemma JoinedParts(cells: seq<string>)
    requires |cells| > 1
    ensures " " + Join(cells, " | ") + " " == " " + cells[0] + " " + ("|" + (" " + Join(cells[1..], " | ") + " "))
  {
    Regroup(cells[0], Join(cells[1..], " | "));
  }

  lemma Regroup(a: string, b: string)
    ensures " " + (a + " | " + b) + " " == " " + a + " " + ("|" + (" " + b + " "))
  {
  }

  /** Splitting a rendered row gives back its cells exactly when they are well formed. */
  lemma SplitRendered(cells: seq<string>, newline: string)
    requires Blank(newline)
    ensures SplitRow(RenderCells(cells, newline)) == cells <==> WellFormed(cells)
  {
    RenderedInside(cells, newline);
    SplitWellFormed(RenderCells(cells, newline));
    if WellFormed(cells) { ScanJoined(cells); }
  }

  /** Splitting is stable: the cells of any line, rendered, split into themselves. */
  lemma SplitStable(line: string, newline: string)
    requires Blank(newline)
    ensures SplitRow(RenderCells(SplitRow(line), newline)) == SplitRow(line)
  {
    SplitWellFormed(line);
    SplitRendered(SplitRow(line), newline);
  }

  // ----- no pipe is lost

  function Pipes(cells: seq<string>): nat {
    if cells == [] then 0 else multiset(cells[0])['|'] + Pipes(cells[1..])
  }

  lemma {:induction false} ScanPipes(text: string, cell: string, ticks: bool)
    ensures Pipes(Scan(text, cell, ticks)) + |Scan(text, cell, ticks)| - 1 == multiset(cell)['|'] + multiset(text)['|']
    decreases |text|
  {
    StripKeepsPipes(cell);
    if text != [] {
      assert text == [text[0]] + text[1..];
      var t := Toggled(text[0], ticks);
      if text[0] == '|' && !t { ScanPipes(text[1..], [], t); } else { ScanPipes(text[1..], cell + [text[0]], t); }
    }
  }

  lemma {:induction false} JoinPipes(cells: seq<string>)
    requires cells != []
    ensures multiset(Join(cells, " | "))['|'] == Pipes(cells) + |cells| - 1
  {
    if |cells| > 1 { JoinPipes(cells[1..]); }
  }

  /** Whatever a rendered row splits into, pipes inside cells and cells together number the same. */
  lemma PipesConserved(cells: seq<string>, newline: string)
    requires cells != [] && Blank(newline)
    ensures var again := SplitRow(RenderCells(cells, newline));
      Pipes(again) + |again| == Pipes(cells) + |cells|
  {
    RenderedInside(cells, newline);
    ScanPipes(Inside(RenderCells(cells, newline)), [], false);
    JoinPipes(cells);
  }

  lemma {:induction false} PipesOfPadded(cells: seq<string>, n: nat)
    ensures Pipes(cells + seq(n, _ => "")) == Pipes(cells)
    decreases |cells|, n
  {
    var padded := cells + seq(n, _ => "");
    if cells != [] {
      assert padded[1..] == cells[1..] + seq(n, _ => "");
      PipesOfPadded(cells[1..], n);
    } else if n > 0 {
      assert padded[1..] == [] + seq(n - 1, _ => "");
      PipesOfPadded(cells, n - 1);
    }
  }

  /** A row padded with empty cells never splits back into the cells it had. */
  lemma PaddedDiffers(cells: seq<string>, n: nat, newline: string)
    requires cells != [] && n > 0 && Blank(newline)
    ensures SplitRow(RenderCells(cells + seq(n, _ => ""), newline)) != cells
  {
    PipesConserved(cells + seq(n, _ => ""), newline);
    PipesOfPadded(cells, n);
  }

  // ----- the document

  /** A row's cells by column, those of other columns apart, its line, and the cells past the header. */
  datatype QueueRow = QueueRow(values: map<string, string>, extra: map<string, string>, raw: string, surplus: seq<string>)

  datatype Document = Document(title: string, preamble: string, header: seq<string>, rows: seq<QueueRow>, trailing: string,
                               separator: string, newline: string, headerRaw: string)

  datatype Error = NoTable | DuplicateColumns

  const KNOWN_COLUMNS := {
    "id", "plan dir", "findings", "owned files", "depends_on / serialize-with", "priority", "state",
    "planned_at", "plan_reviewed_at", "build_started_at", "build_done_at", "merged_at"
  }

  predicate StartsTable(plain: string) {
    StartsWith(LStrip(plain), "|")
  }

  /** A line that begins, after white space, with an optional pipe, an optional colon and three dashes. */
  predicate IsRule(plain: string) {
    var s := LStrip(plain);
    var t := if StartsWith(s, "|") then LStrip(s[1..]) else s;
    StartsWith(if StartsWith(t, ":") then t[1..] else t, "---")
  }

  /** The first line at or after `i` that a rule follows, or -1. */
  function FindHeader(plain: seq<string>, i: nat): (h: int)
    requires i <= |plain|
    ensures h == -1 || i <= h < |plain| - 1
    decreases |plain| - i
  {
    if i + 1 >= |plain| then -1
    else if StartsTable(plain[i]) && IsRule(plain[i + 1]) then i
    else FindHeader(plain, i + 1)
  }

  function FindTitle(plain: seq<string>): string {
    if plain == [] then [] else if StartsWith(plain[0], "# ") then plain[0] else FindTitle(plain[1..])
  }

  function CellAt(cells: seq<string>, pos: nat): string {
    if pos < |cells| then cells[pos] else ""
  }

  function Plain(lines: seq<string>): (r: seq<string>)
    ensures |r| == |lines| && forall i :: 0 <= i < |r| ==> r[i] == RStripNewline(lines[i])
  {
    seq(|lines|, i requires 0 <= i < |lines| => RStripNewline(lines[i]))
  }

  function IndexOf(header: seq<string>, key: string): (pos: nat)
    requires key in header
    ensures pos < |header| && header[pos] == key
  {
    if header[0] == key then 0 else 1 + IndexOf(header[1..], key)
  }

  /** The cells by column; a column past the end of the row is empty. */
  function ValuesOf(header: seq<string>, cells: seq<string>): map<string, string> {
    map key | key in header :: CellAt(cells, IndexOf(header, key))
  }

  function Upto(cells: seq<string>, n: nat): seq<string> {
    if |cells| <= n then cells else cells[..n]
  }

  function From(cells: seq<string>, n: nat): seq<string> {
    if |cells| <= n then [] else cells[n..]
  }

  function RowOf(header: seq<string>, line: string): QueueRow {
    var cells := SplitRow(RStripNewline(line));
    var values := ValuesOf(header, cells);
    QueueRow(values, values - KNOWN_COLUMNS, line, From(cells, |header|))
  }

  function RowsOf(header: seq<string>, lines: seq<string>): (rows: seq<QueueRow>)
    ensures |rows| == |lines| && forall i :: 0 <= i < |rows| ==> rows[i] == RowOf(header, lines[i])
  {
    seq(|lines|, i requires 0 <= i < |lines| => RowOf(header, lines[i]))
  }

  /** How many lines the table goes on for. */
  function RowCount(plain: seq<string>): (n: nat)
    ensures n <= |plain|
  {
    if plain == [] || !StartsTable(plain[0]) then 0 else 1 + RowCount(plain[1..])
  }

  function NewlineOf(text: string): string {
    if Contains(text, "\r\n") then "\r\n" else "\n"
  }

  /** The document whose table has its header on line `h` and its rows on the lines up to `end`. */
  function Table(lines: seq<string>, title: string, newline: string, header: seq<string>, h: nat, end: nat): Document
    requires h + 2 <= end <= |lines|
  {
    Document(title, Concat(lines[..h]), header, RowsOf(header, lines[h + 2..end]), Concat(lines[end..]), lines[h + 1], newline,
             lines[h])
  }

  function TableEnd(lines: seq<string>, h: nat): (end: nat)
    requires h + 2 <= |lines|
    ensures h + 2 <= end <= |lines|
  {
    h + 2 + RowCount(Plain(lines[h + 2..]))
  }

  function ParseAt(text: string, lines: seq<string>, h: nat): Result<Document, Error>
    requires h + 2 <= |lines|
  {
    var header := SplitRow(RStripNewline(lines[h]));
    if |Elements(header)| != |header| then Err(DuplicateColumns)
    else Ok(Table(lines, FindTitle(Plain(lines[..h])), NewlineOf(text), header, h, TableEnd(lines, h)))
  }

  const NO_TABLE := Document([], [], [], [], [], [], "\n", [])

  function Parse(text: string): Result<Document, Error> {
    var lines := SplitLines(text);
    var h := FindHeader(Plain(lines), 0);
    if h >= 0 then ParseAt(text, lines, h)
    else if Strip(text) != [] then Err(NoTable)
    else Ok(NO_TABLE.(preamble := text))
  }

  method FindHeaderLine(plain: seq<string>) returns (h: int)
    ensures h == FindHeader(plain, 0)
  {
    var i := 0;
    while i + 1 < |plain|
      invariant i <= |plain| && FindHeader(plain, 0) == FindHeader(plain, i)
    {
      if StartsTable(plain[i]) && IsRule(plain[i + 1]) {
        return i;
      }
      i := i + 1;
    }
    h := -1;
  }

  method ReadRow(header: seq<string>, line: string) returns (row: QueueRow)
    ensures row == RowOf(header, line)
  {
    var cells := SplitTableRow(RStripNewline(line));
    var values := ValuesOf(header, cells);
    row := QueueRow(values, values - KNOWN_COLUMNS, line, From(cells, |header|));
  }

  lemma RowCountNext(plain: seq<string>, n: nat)
    requires n < |plain| && StartsTable(plain[n])
    ensures RowCount(plain[n..]) == 1 + RowCount(plain[n + 1..])
  {
    assert plain[n..][1..] == plain[n + 1..];
  }

  lemma RowsOfNext(header: seq<string>, lines: seq<string>, n: nat)
    requires n < |lines|
    ensures RowsOf(header, lines[..n + 1]) == RowsOf(header, lines[..n]) + [RowOf(header, lines[n])]
  {
  }

  method ReadRows(header: seq<string>, lines: seq<string>) returns (rows: seq<QueueRow>)
    ensures |rows| == RowCount(Plain(lines)) && rows == RowsOf(header, lines[..|rows|])
  {
    var plain := Plain(lines);
    rows := [];
    assert plain[0..] == plain;
    while |rows| < |plain| && StartsTable(plain[|rows|])
      invariant |rows| <= |plain|
      invariant rows == RowsOf(header, lines[..|rows|])
      invariant |rows| + RowCount(plain[|rows|..]) == RowCount(plain)
    {
      RowCountNext(plain, |rows|);
      RowsOfNext(header, lines, |rows|);
      var row := ReadRow(header, lines[|rows|]);
      rows := rows + [row];
    }
  }

  method ParseQueueMd(text: string) returns (r: Result<Document, Error>)
    ensures r == Parse(text)
  {
    var lines := SplitLines(text);
    var h := FindHeaderLine(Plain(lines));
    if h < 0 {
      if Strip(text) != [] {
        return Err(NoTable);
      }
      return Ok(NO_TABLE.(preamble := text));
    }
    r := ReadTable(text, lines, h);
  }

  method ReadTable(text: string, lines: seq<string>, h: nat) returns (r: Result<Document, Error>)
    requires h + 2 <= |lines|
    ensures r == ParseAt(text, lines, h)
  {
    var header := SplitTableRow(RStripNewline(lines[h]));
    if |Elements(header)| != |header| {
      return Err(DuplicateColumns);
    }
    var rows := ReadRows(header, lines[h + 2..]);
    var index := h + 2 + |rows|;
    assert lines[h + 2..][..|rows|] == lines[h + 2..index];
    assert index == TableEnd(lines, h);
    r := Ok(Document(FindTitle(Plain(lines[..h])), Concat(lines[..h]), header, rows, Concat(lines[index..]), lines[h + 1],
                     NewlineOf(text), lines[h]));
  }

  // ----- rendering the document

  function Current(header: seq<string>, values: map<string, string>): (r: seq<string>)
    ensures |r| == |header|
  {
    seq(|header|, i requires 0 <= i < |header| => if header[i] in values then values[header[i]] else "")
  }

  /** A row that still says what its line says is that line; any other is written from its cells. */
  function RenderRow(header: seq<string>, row: QueueRow, newline: string): string {
    var original := SplitRow(RStripNewline(row.raw));
    if Current(header, row.values) == Upto(original, |header|) && row.surplus == From(original, |header|) then row.raw
    else RenderCells(Current(header, row.values) + row.surplus, newline)
  }

  function RenderRows(doc: Document, rows: seq<QueueRow>): (r: seq<string>)
    ensures |r| == |rows| && forall i :: 0 <= i < |r| ==> r[i] == RenderRow(doc.header, rows[i], doc.newline)
  {
    seq(|rows|, i requires 0 <= i < |rows| => RenderRow(doc.header, rows[i], doc.newline))
  }

  function Render(doc: Document): string {
    if doc.header == [] then doc.preamble
    else doc.preamble + doc.headerRaw + doc.separator + Concat(RenderRows(doc, doc.rows)) + doc.trailing
  }

  lemma {:induction false} IndexOfColumn(header: seq<string>, pos: nat)
    requires pos < |header| && Distinct(header)
    ensures IndexOf(header, header[pos]) == pos
  {
    if pos > 0 {
      assert header[0] != header[pos];
      IndexOfColumn(header[1..], pos - 1);
    }
  }

  function Missing(header: seq<string>, cells: seq<string>): nat {
    if |cells| < |header| then |header| - |cells| else 0
  }

  /** What a parsed row says: its cells, filled up with empty ones or cut to the header. */
  lemma CurrentOfRow(header: seq<string>, cells: seq<string>)
    requires Distinct(header)
    ensures Current(header, ValuesOf(header, cells)) == Upto(cells, |header|) + seq(Missing(header, cells), _ => "")
  {
    var current := Current(header, ValuesOf(header, cells));
    forall i | 0 <= i < |header| ensures current[i] == CellAt(cells, i) {
      IndexOfColumn(header, i);
      assert header[i] in header;
    }
  }

  /** A parsed row comes back as its line exactly if it has a cell for every column; else it is padded. */
  lemma ParsedRowRenders(header: seq<string>, line: string, newline: string)
    requires Distinct(header)
    ensures var cells := SplitRow(RStripNewline(line));
      RenderRow(header, RowOf(header, line), newline) ==
        if |header| <= |cells| then line else RenderCells(cells + seq(|header| - |cells|, _ => ""), newline)
  {
    var cells := SplitRow(RStripNewline(line));
    CurrentOfRow(header, cells);
    if |header| <= |cells| {
      assert Upto(cells, |header|) + [] == Upto(cells, |header|);
    } else {
      assert (cells + seq(|header| - |cells|, _ => "")) + [] == cells + seq(|header| - |cells|, _ => "");
    }
  }

  // ----- lossless, and exactly when

  /** Every row has a cell for every column. */
  ghost predicate AllFull(doc: Document) {
    forall i :: 0 <= i < |doc.rows| ==> |doc.header| <= |SplitRow(RStripNewline(doc.rows[i].raw))|
  }

  /** Where the rows of a parsed document lie among the lines of its text. */
  lemma ParsedLines(text: string) returns (from: nat, to: nat)
    requires Parse(text).Ok? && Parse(text).value.header != []
    ensures 2 <= from <= to <= |SplitLines(text)|
    ensures InPlace(Parse(text).value, SplitLines(text), from, to)
  {
    var lines := SplitLines(text);
    var h := FindHeader(Plain(lines), 0);
    from, to := h + 2, TableEnd(lines, h);
    CountDistinct(Parse(text).value.header);
    ConcatFirst(lines, h);
  }

  ghost predicate InPlace(doc: Document, lines: seq<string>, from: nat, to: nat)
    requires from <= to <= |lines|
  {
    && doc.preamble + doc.headerRaw + doc.separator == Concat(lines[..from])
    && doc.rows == RowsOf(doc.header, lines[from..to])
    && doc.trailing == Concat(lines[to..])
    && Distinct(doc.header) && Newline(doc.newline)
  }

  lemma ConcatFirst(lines: seq<string>, h: nat)
    requires h + 2 <= |lines|
    ensures Concat(lines[..h]) + lines[h] + lines[h + 1] == Concat(lines[..h + 2])
  {
    ConcatSnoc(lines[..h], lines[h]);
    ConcatSnoc(lines[..h] + [lines[h]], lines[h + 1]);
    assert lines[..h + 2] == lines[..h] + [lines[h]] + [lines[h + 1]];
  }

  lemma ConcatSnoc(parts: seq<string>, last: string)
    ensures Concat(parts + [last]) == Concat(parts) + last
  {
    ConcatAppend(parts, [last]);
    assert [last][1..] == [];
  }

  ghost predicate Newline(newline: string) {
    newline == "\n" || newline == "\r\n"
  }

  /** A piece that starts a line of its own whatever follows it. */
  ghost predicate FullLine(piece: string) {
    piece != [] && forall rest: string :: LineEnd(piece + rest) == |piece|
  }

  /** Pieces that are lines of the text or full lines of their own can only add up to the text if they are its lines. */
  lemma {:induction false} PiecesAreLines(pieces: seq<string>, text: string, tail: string)
    requires |pieces| <= |SplitLines(text)| && Concat(pieces) + tail == text
    requires forall i :: 0 <= i < |pieces| ==> pieces[i] == SplitLines(text)[i] || FullLine(pieces[i])
    ensures pieces <= SplitLines(text)
    decreases |pieces|
  {
    if pieces != [] {
      var lines := SplitLines(text);
      var rest := Concat(pieces[1..]) + tail;
      assert text == pieces[0] + rest;
      if FullLine(pieces[0]) { assert LineEnd(pieces[0] + rest) == |pieces[0]|; }
      assert pieces[0] == lines[0] && rest == text[LineEnd(text)..] && lines[1..] == SplitLines(rest);
      forall i | 0 <= i < |pieces| - 1 ensures pieces[1..][i] == lines[1..][i] || FullLine(pieces[1..][i]) {
        assert pieces[i + 1] == lines[i + 1] || FullLine(pieces[i + 1]);
      }
      PiecesAreLines(pieces[1..], rest, tail);
      assert pieces == [pieces[0]] + pieces[1..] && lines == [lines[0]] + lines[1..];
    }
  }

  ghost predicate AllNoBreak(cells: seq<string>) {
    forall i :: 0 <= i < |cells| ==> NoBreak(cells[i])
  }

  lemma {:induction false} ScanNoBreak(text: string, cell: string, ticks: bool)
    requires NoBreak(text) && NoBreak(cell)
    ensures AllNoBreak(Scan(text, cell, ticks))
    decreases |text|
  {
    StripFrom(cell);
    if text != [] {
      var t := Toggled(text[0], ticks);
      if text[0] == '|' && !t { ScanNoBreak(text[1..], [], t); } else { ScanNoBreak(text[1..], cell + [text[0]], t); }
    }
  }

  lemma StripFrom(s: string)
    ensures forall c :: c in Strip(s) ==> c in s
  {
    var left := LStripCuts(s);
    var right := RStripCuts(LStrip(s));
    forall c | c in Strip(s) ensures c in s {
      assert c in Strip(s) + right;
      assert c in left + LStrip(s);
    }
  }

  lemma {:induction false} JoinNoBreak(parts: seq<string>)
    requires AllNoBreak(parts)
    ensures NoBreak(Join(parts, " | "))
  {
    if |parts| > 1 { JoinNoBreak(parts[1..]); }
  }

  lemma RenderedFullLine(cells: seq<string>, newline: string)
    requires Newline(newline) && AllNoBreak(cells)
    ensures FullLine(RenderCells(cells, newline))
  {
    JoinNoBreak(cells);
    var body := "| " + Join(cells, " | ") + " |";
    assert NoBreak(body);
    forall rest: string ensures LineEnd(RenderCells(cells, newline) + rest) == |RenderCells(cells, newline)| {
      LineEndsAt(body, newline, rest);
    }
  }

  lemma StripChop(line: string)
    ensures Strip(line) == Strip(Chop(line))
  {
    BreaksAreSpace(line, |Chop(line)|);
    StripIgnoresEnd(Chop(line), line[|Chop(line)|..]);
    assert Chop(line) + line[|Chop(line)|..] == line;
  }

  /** The cells of a line of a text hold no break. */
  lemma LineCells(text: string, k: nat)
    requires k < |SplitLines(text)|
    ensures AllNoBreak(SplitRow(RStripNewline(SplitLines(text)[k])))
  {
    var line := SplitLines(text)[k];
    LinesNoBreak(text, k);
    SameRow(line);
    StripChop(line);
    StripFrom(Chop(line));
    ScanNoBreak(Inside(line), [], false);
  }

  /** The line terminator does not change how a row splits. */
  lemma SameRow(line: string)
    ensures SplitRow(RStripNewline(line)) == SplitRow(line)
  {
    var plain := RStripNewline(line);
    NewlinesAreSpace(line);
    StripIgnoresEnd(plain, line[|plain|..]);
    assert plain + line[|plain|..] == line;
  }

  /** A short row is written as a line of its own, and not as the line it was. */
  lemma ShortRowRenders(text: string, k: nat, header: seq<string>, newline: string)
    requires k < |SplitLines(text)| && Distinct(header) && Newline(newline)
    ensures var line := SplitLines(text)[k];
      var rendered := RenderRow(header, RowOf(header, line), newline);
      if |header| <= |SplitRow(RStripNewline(line))| then rendered == line else FullLine(rendered) && rendered != line
  {
    var line := SplitLines(text)[k];
    var cells := SplitRow(RStripNewline(line));
    ParsedRowRenders(header, line, newline);
    if |cells| < |header| {
      var n := |header| - |cells|;
      LineCells(text, k);
      RenderedFullLine(cells + seq(n, _ => ""), newline);
      PaddedDiffers(cells, n, newline);
      SameRow(line);
    }
  }

  /**
   Rendering a parsed text gives it back exactly when every row has a cell for every column; a shorter
   row is filled up with empty cells.
   */
  lemma RenderParse(text: string)
    requires Parse(text).Ok?
    ensures Render(Parse(text).value) == text <==> AllFull(Parse(text).value)
  {
    if Parse(text).value.header != [] {
      var from, to := ParsedLines(text);
      RenderInPlace(Parse(text).value, text, from, to);
    }
  }

  lemma RowInPlace(doc: Document, text: string, from: nat, to: nat, i: nat)
    requires from <= to <= |SplitLines(text)| && InPlace(doc, SplitLines(text), from, to) && i < |doc.rows|
    ensures var line := SplitLines(text)[from..to][i];
      var piece := RenderRow(doc.header, doc.rows[i], doc.newline);
      if |doc.header| <= |SplitRow(RStripNewline(doc.rows[i].raw))| then piece == line else FullLine(piece) && piece != line
  {
    ShortRowRenders(text, from + i, doc.header, doc.newline);
  }

  lemma RenderInPlace(doc: Document, text: string, from: nat, to: nat)
    requires doc.header != [] && from <= to <= |SplitLines(text)| && InPlace(doc, SplitLines(text), from, to)
    ensures Render(doc) == text <==> AllFull(doc)
  {
    var middle, pieces := SplitLines(text)[from..to], RenderRows(doc, doc.rows);
    forall i | 0 <= i < |pieces|
      ensures if |doc.header| <= |SplitRow(RStripNewline(doc.rows[i].raw))| then pieces[i] == middle[i]
              else FullLine(pieces[i]) && pieces[i] != middle[i]
    {
      RowInPlace(doc, text, from, to, i);
    }
    RenderedSame(doc, text, from, to, pieces);
  }

  lemma RenderedSame(doc: Document, text: string, from: nat, to: nat, pieces: seq<string>)
    requires doc.header != [] && from <= to <= |SplitLines(text)| && InPlace(doc, SplitLines(text), from, to)
    requires pieces == RenderRows(doc, doc.rows)
    requires forall i :: 0 <= i < |pieces| ==> pieces[i] == SplitLines(text)[from..to][i] || FullLine(pieces[i])
    ensures Render(doc) == text <==> pieces == SplitLines(text)[from..to]
  {
    var lines := SplitLines(text);
    var head, middle := doc.preamble + doc.headerRaw + doc.separator, lines[from..to];
    InPlaceText(doc, text, from, to);
    ThreeParts(lines, from, to);
    SplitLinesFrom(text, from);
    PiecesVersusLines(pieces, middle, doc.trailing, lines[from..]);
    Seqs.Associative(head, Concat(pieces), doc.trailing);
    if Render(doc) == text { DropHead(head, Concat(pieces) + doc.trailing, Concat(middle) + doc.trailing); }
  }

  lemma PiecesVersusLines(pieces: seq<string>, middle: seq<string>, tail: string, lines: seq<string>)
    requires |pieces| == |middle| && middle <= lines
    requires lines == SplitLines(Concat(middle) + tail)
    requires forall i :: 0 <= i < |pieces| ==> pieces[i] == middle[i] || FullLine(pieces[i])
    ensures Concat(pieces) + tail == Concat(middle) + tail <==> pieces == middle
  {
    if Concat(pieces) + tail == Concat(middle) + tail {
      PiecesAreLines(pieces, Concat(middle) + tail, tail);
      assert pieces == lines[..|pieces|] && middle == lines[..|middle|];
    }
  }

  lemma DropHead(head: string, a: string, b: string)
    requires head + a == head + b
    ensures a == b
  {
    assert a == (head + a)[|head|..] && b == (head + b)[|head|..];
  }

  lemma ConcatParts(whole: seq<string>, a: seq<string>, b: seq<string>)
    requires whole == a + b
    ensures Concat(whole) == Concat(a) + Concat(b)
  {
    ConcatAppend(a, b);
  }

  lemma ThreeParts(lines: seq<string>, from: nat, to: nat)
    requires from <= to <= |lines|
    ensures Concat(lines) == Concat(lines[..from]) + (Concat(lines[from..to]) + Concat(lines[to..]))
    ensures Concat(lines[from..]) == Concat(lines[from..to]) + Concat(lines[to..])
  {
    var head, middle, tail, rest := lines[..from], lines[from..to], lines[to..], lines[from..];
    Seqs.CutAt(lines, 0, from);
    assert lines[0..] == lines && lines[0..from] == head;
    Seqs.CutAt(lines, from, to);
    ConcatParts(lines, head, rest);
    ConcatParts(rest, middle, tail);
  }

  /** The lines from `k` on are the lines of the rest of the text. */
  lemma {:induction false} SplitLinesFrom(text: string, k: nat)
    requires k <= |SplitLines(text)|
    ensures SplitLines(Concat(SplitLines(text)[k..])) == SplitLines(text)[k..]
    decreases k
  {
    var lines := SplitLines(text);
    if k == 0 {
      LinesConcat(text);
      assert lines[0..] == lines;
    } else {
      SplitLinesFrom(text[LineEnd(text)..], k - 1);
      assert lines[k..] == lines[1..][k - 1..];
    }
  }

  // ----- edits

  function Edited(doc: Document, j: nat, values: map<string, string>): Document
    requires j < |doc.rows|
  {
    doc.(rows := doc.rows[j := doc.rows[j].(values := values)])
  }

  lemma {:induction false} ConcatUpdate(parts: seq<string>, j: nat, x: string)
    requires j < |parts|
    ensures Concat(parts[j := x]) == Concat(parts[..j]) + x + Concat(parts[j + 1..])
  {
    ConcatSnoc(parts[..j], x);
    ConcatAppend(parts[..j] + [x], parts[j + 1..]);
    assert parts[j := x] == parts[..j] + [x] + parts[j + 1..];
  }

  lemma EditedRow(header: seq<string>, line: string, values: map<string, string>, newline: string)
    requires Distinct(header) && |header| <= |SplitRow(RStripNewline(line))|
    requires Current(header, values) != Current(header, RowOf(header, line).values)
    ensures var row := RowOf(header, line).(values := values);
      RenderRow(header, row, newline) == RenderCells(Current(header, values) + row.surplus, newline)
  {
    var cells := SplitRow(RStripNewline(line));
    CurrentOfRow(header, cells);
    assert Upto(cells, |header|) + [] == Upto(cells, |header|);
  }

  lemma EditedPieces(doc: Document, j: nat, values: map<string, string>, lines: seq<string>)
    requires j < |doc.rows| && Distinct(doc.header) && AllFull(doc) && doc.rows == RowsOf(doc.header, lines)
    requires Current(doc.header, values) != Current(doc.header, doc.rows[j].values)
    ensures RenderRows(Edited(doc, j, values), Edited(doc, j, values).rows)
         == lines[j := RenderCells(Current(doc.header, values) + doc.rows[j].surplus, doc.newline)]
  {
    EditedRow(doc.header, lines[j], values, doc.newline);
    forall i | 0 <= i < |lines| && i != j ensures RenderRow(doc.header, doc.rows[i], doc.newline) == lines[i] {
      ParsedRowRenders(doc.header, lines[i], doc.newline);
    }
  }

  /**
   Editing one row of a document changes the line of that row and nothing else in the text, and the new
   line splits back into the edited cells exactly when they are well formed.
   */
  lemma EditIsLocal(text: string, doc: Document, j: nat, values: map<string, string>) returns (before: string, after: string)
    requires Parse(text) == Ok(doc) && doc.header != [] && AllFull(doc)
    requires j < |doc.rows| && Current(doc.header, values) != Current(doc.header, doc.rows[j].values)
    ensures EditReplacesLine(text, doc, j, values, before, after)
  {
    var from, to := ParsedLines(text);
    before, after := EditLine(doc, text, from, to, j, values);
  }

  lemma EditLine(doc: Document, text: string, from: nat, to: nat, j: nat, values: map<string, string>)
    returns (before: string, after: string)
    requires doc.header != [] && from <= to <= |SplitLines(text)| && InPlace(doc, SplitLines(text), from, to)
    requires AllFull(doc) && j < |doc.rows| && Current(doc.header, values) != Current(doc.header, doc.rows[j].values)
    ensures EditReplacesLine(text, doc, j, values, before, after)
  {
    before, after := EditInPlace(doc, text, from, to, j, values);
    SplitRendered(Current(doc.header, values) + doc.rows[j].surplus, doc.newline);
  }

  ghost predicate EditReplacesLine(text: string, doc: Document, j: nat, values: map<string, string>, before: string, after: string)
    requires j < |doc.rows|
  {
    var cells := Current(doc.header, values) + doc.rows[j].surplus;
    && text == before + doc.rows[j].raw + after
    && Render(Edited(doc, j, values)) == before + RenderCells(cells, doc.newline) + after
    && (SplitRow(RenderCells(cells, doc.newline)) == cells <==> WellFormed(cells))
  }

  lemma EditInPlace(doc: Document, text: string, from: nat, to: nat, j: nat, values: map<string, string>)
    returns (before: string, after: string)
    requires doc.header != [] && from <= to <= |SplitLines(text)| && InPlace(doc, SplitLines(text), from, to)
    requires AllFull(doc) && j < |doc.rows| && Current(doc.header, values) != Current(doc.header, doc.rows[j].values)
    ensures text == before + doc.rows[j].raw + after
    ensures Render(Edited(doc, j, values))
         == before + RenderCells(Current(doc.header, values) + doc.rows[j].surplus, doc.newline) + after
  {
    var middle, head := SplitLines(text)[from..to], doc.preamble + doc.headerRaw + doc.separator;
    var cells := Current(doc.header, values) + doc.rows[j].surplus;
    InPlaceText(doc, text, from, to);
    EditedText(doc, j, values, middle);
    before, after := UpdateMiddle(head, middle, doc.trailing, j, RenderCells(cells, doc.newline));
  }

  lemma InPlaceText(doc: Document, text: string, from: nat, to: nat)
    requires from <= to <= |SplitLines(text)| && InPlace(doc, SplitLines(text), from, to)
    ensures text == doc.preamble + doc.headerRaw + doc.separator + (Concat(SplitLines(text)[from..to]) + doc.trailing)
  {
    LinesConcat(text);
    ThreeParts(SplitLines(text), from, to);
  }

  lemma EditedText(doc: Document, j: nat, values: map<string, string>, lines: seq<string>)
    requires j < |doc.rows| && Distinct(doc.header) && AllFull(doc) && doc.rows == RowsOf(doc.header, lines)
    requires doc.header != [] && Current(doc.header, values) != Current(doc.header, doc.rows[j].values)
    ensures var line := RenderCells(Current(doc.header, values) + doc.rows[j].surplus, doc.newline);
      Render(Edited(doc, j, values)) == doc.preamble + doc.headerRaw + doc.separator + Concat(lines[j := line]) + doc.trailing
  {
    EditedPieces(doc, j, values, lines);
  }

  lemma UpdateMiddle(head: string, middle: seq<string>, tail: string, j: nat, x: string) returns (before: string, after: string)
    requires j < |middle|
    ensures head + (Concat(middle) + tail) == before + middle[j] + after
    ensures head + Concat(middle[j := x]) + tail == before + x + after
  {
    ConcatUpdate(middle, j, x);
    ConcatUpdate(middle, j, middle[j]);
    assert middle[j := middle[j]] == middle;
    var left, right := Concat(middle[..j]), Concat(middle[j + 1..]);
    before, after := head + left, right + tail;
    Rebracket(head, left, x, right, tail);
    Rebracket(head, left, middle[j], right, tail);
  }

  lemma Rebracket(a: string, b: string, c: string, d: string, e: string)
    ensures a + (b + c + d) + e == (a + b) + c + (d + e)
    ensures a + ((b + c + d) + e) == (a + b) + c + (d + e)
  {
  }
}

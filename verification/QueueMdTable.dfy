/** What a parsed markdown queue holds, line by line and cell by cell, and when there is none. */
module QueueMdTable {
  import opened Basics
  import opened PyText
  import opened QueueMd
  import opened Seqs

  // ----- rules

  ghost predicate Spaces(s: string) {
    forall c :: c in s ==> IsSpace(c)
  }

  /** White space, perhaps a pipe and more white space, perhaps a colon, and three dashes. */
  ghost predicate RuleParts(plain: string, left: string, pipe: string, gap: string, colon: string) {
    && Spaces(left) && Spaces(gap) && (pipe == "|" || (pipe == "" && gap == "")) && (colon == ":" || colon == "")
    && left + pipe + gap + colon + "---" <= plain
  }

  predicate IsDashes(t: string) {
    StartsWith(if StartsWith(t, ":") then t[1..] else t, "---")
  }

  lemma DashesOf(t: string, colon: string)
    requires (colon == ":" || colon == "") && colon + "---" <= t
    ensures IsDashes(t)
  {
    if colon == ":" {
      assert (":" + "---")[1..] == "---" && "---" <= t[1..];
    } else {
      assert "" + "---" == "---" && t[0] == '-';
    }
  }

  lemma DashesHave(t: string) returns (colon: string)
    requires IsDashes(t)
    ensures (colon == ":" || colon == "") && colon + "---" <= t
  {
    colon := if StartsWith(t, ":") then ":" else "";
    assert StartsWith(t, ":") ==> t == ":" + t[1..];
  }

  lemma DashesAfter(s: string, left: string, colon: string)
    requires Spaces(left) && (colon == ":" || colon == "") && left + colon + "---" <= s
    ensures IsDashes(LStrip(s)) && !StartsWith(LStrip(s), "|")
  {
    var rest := s[|left|..];
    assert s == left + rest && colon + "---" <= rest;
    LStripSpaces(left, rest);
    assert LStrip(rest) == rest;
    DashesOf(rest, colon);
  }

  /** The test of the source is the pattern. */
  lemma RuleIff(plain: string)
    ensures IsRule(plain) <==> exists left, pipe, gap, colon :: RuleParts(plain, left, pipe, gap, colon)
  {
    if IsRule(plain) {
      var left, pipe, gap, colon := PartsOfRule(plain);
    }
    if exists left, pipe, gap, colon :: RuleParts(plain, left, pipe, gap, colon) {
      var left, pipe, gap, colon :| RuleParts(plain, left, pipe, gap, colon);
      PartsAreRule(plain, left, pipe, gap, colon);
    }
  }

  lemma PartsAreRule(plain: string, left: string, pipe: string, gap: string, colon: string)
    requires RuleParts(plain, left, pipe, gap, colon)
    ensures IsRule(plain)
  {
    if pipe == "" {
      assert left + pipe + gap + colon + "---" == left + colon + "---";
      DashesAfter(plain, left, colon);
    } else {
      var rest := plain[|left|..];
      assert plain == left + rest && "|" + (gap + colon + "---") <= rest;
      LStripSpaces(left, rest);
      assert LStrip(rest) == rest && gap + colon + "---" <= rest[1..];
      DashesAfter(rest[1..], gap, colon);
    }
  }

  lemma Prefixed(left: string, pipe: string, gap: string, head: string, t: string)
    requires head <= t
    ensures left + pipe + gap + head <= left + (pipe + (gap + t))
  {
    assert left + (pipe + (gap + t)) == left + pipe + gap + t;
    assert t == head + t[|head|..];
    assert left + pipe + gap + t == left + pipe + gap + head + t[|head|..];
  }

  lemma PartsOfRule(plain: string) returns (left: string, pipe: string, gap: string, colon: string)
    requires IsRule(plain)
    ensures RuleParts(plain, left, pipe, gap, colon)
  {
    left := LStripCuts(plain);
    var s := LStrip(plain);
    if StartsWith(s, "|") {
      pipe := "|";
      gap := LStripCuts(s[1..]);
      assert s == pipe + (gap + LStrip(s[1..]));
      colon := DashesHave(LStrip(s[1..]));
      Prefixed(left, pipe, gap, colon + "---", LStrip(s[1..]));
    } else {
      pipe, gap := "", "";
      assert s == pipe + (gap + s);
      colon := DashesHave(s);
      Prefixed(left, pipe, gap, colon + "---", s);
    }
    Associative(left + pipe + gap, colon, "---");
  }

  // ----- the table

  /** Line `h` looks like the head of a table, and the next like its rule. */
  predicate HeadAt(plain: seq<string>, h: nat) {
    h + 1 < |plain| && StartsTable(plain[h]) && IsRule(plain[h + 1])
  }

  lemma {:induction false} FindHeaderIsFirst(plain: seq<string>, i: nat)
    requires i <= |plain|
    ensures var h := FindHeader(plain, i);
      if h < 0 then forall k: nat :: i <= k ==> !HeadAt(plain, k)
      else HeadAt(plain, h) && forall k: nat :: i <= k < h ==> !HeadAt(plain, k)
    decreases |plain| - i
  {
    if i + 1 < |plain| && !HeadAt(plain, i) { FindHeaderIsFirst(plain, i + 1); }
  }

  /** The title is the first line that starts like a heading, or nothing. */
  ghost predicate TitleOf(title: string, plain: seq<string>) {
    || (title == "" && forall i :: 0 <= i < |plain| ==> !StartsWith(plain[i], "# "))
    || (exists i :: 0 <= i < |plain| && plain[i] == title && StartsWith(title, "# ")
                    && forall k :: 0 <= k < i ==> !StartsWith(plain[k], "# "))
  }

  lemma {:induction false} FindTitleIsFirst(plain: seq<string>)
    ensures TitleOf(FindTitle(plain), plain)
  {
    if plain != [] && !StartsWith(plain[0], "# ") {
      FindTitleIsFirst(plain[1..]);
      var title := FindTitle(plain[1..]);
      if title == "" && forall i :: 0 <= i < |plain[1..]| ==> !StartsWith(plain[1..][i], "# ") {
        assert forall i :: 0 < i < |plain| ==> plain[i] == plain[1..][i - 1];
      } else {
        var i :| 0 <= i < |plain[1..]| && plain[1..][i] == title && StartsWith(title, "# ")
                 && forall k :: 0 <= k < i ==> !StartsWith(plain[1..][k], "# ");
        assert plain[i + 1] == title;
        assert forall k :: 0 < k < i + 1 ==> plain[k] == plain[1..][k - 1];
      }
    }
  }

  /** The rows go on for as long as lines start with a pipe. */
  lemma {:induction false} RowCountIs(plain: seq<string>)
    ensures forall i :: 0 <= i < RowCount(plain) ==> StartsTable(plain[i])
    ensures RowCount(plain) < |plain| ==> !StartsTable(plain[RowCount(plain)])
  {
    if plain != [] && StartsTable(plain[0]) {
      RowCountIs(plain[1..]);
      forall i | 0 <= i < RowCount(plain) ensures StartsTable(plain[i]) {
        if i > 0 { assert plain[i] == plain[1..][i - 1]; }
      }
    }
  }

  /** A row says what its line says: each column its cell, or nothing past the end, and the cells past the header. */
  ghost predicate RowSays(row: QueueRow, header: seq<string>, line: string) {
    var cells := SplitRow(RStripNewline(line));
    && row.raw == line
    && (forall key :: key in row.values <==> key in header)
    && (forall i :: 0 <= i < |header| ==> header[i] in row.values && row.values[header[i]] == if i < |cells| then cells[i] else "")
    && (forall key :: key in row.extra <==> key in header && key !in KNOWN_COLUMNS)
    && (forall key :: key in row.extra ==> row.extra[key] == row.values[key])
    && (if |cells| <= |header| then row.surplus == [] else cells == cells[..|header|] + row.surplus)
  }

  lemma RowOfSays(header: seq<string>, line: string)
    requires Distinct(header)
    ensures RowSays(RowOf(header, line), header, line)
  {
    forall i | 0 <= i < |header| ensures header[i] in header && IndexOf(header, header[i]) == i {
      IndexOfColumn(header, i);
    }
  }

  /** What stands around the rows: the lines before the head, the head and its rule, and the lines after the last row. */
  ghost predicate FramedAt(doc: Document, lines: seq<string>, h: nat) {
    var end := h + 2 + |doc.rows|;
    && end <= |lines| && doc.preamble == Concat(lines[..h]) && doc.headerRaw == lines[h] && doc.separator == lines[h + 1]
    && doc.trailing == Concat(lines[end..]) && (end < |lines| ==> !StartsTable(RStripNewline(lines[end])))
    && TitleOf(doc.title, Plain(lines[..h]))
  }

  /** The rows say what the lines below the rule say, every one of which starts with a pipe. */
  ghost predicate RowsSay(rows: seq<QueueRow>, header: seq<string>, lines: seq<string>) {
    |rows| <= |lines| && forall i :: 0 <= i < |rows| ==> StartsTable(RStripNewline(lines[i])) && RowSays(rows[i], header, lines[i])
  }

  /** The document is the table whose head is on line `h`. */
  ghost predicate TableAt(doc: Document, text: string, lines: seq<string>, h: nat) {
    && h + 2 <= |lines| && doc.header == SplitRow(RStripNewline(lines[h])) && Distinct(doc.header)
    && FramedAt(doc, lines, h) && RowsSay(doc.rows, doc.header, lines[h + 2..])
    && doc.newline == if Contains(text, "\r\n") then "\r\n" else "\n"
  }

  lemma EndOfRows(lines: seq<string>, h: nat)
    requires h + 2 <= |lines|
    ensures TableEnd(lines, h) < |lines| ==> !StartsTable(RStripNewline(lines[TableEnd(lines, h)]))
  {
    var rest := lines[h + 2..];
    var n := RowCount(Plain(rest));
    RowCountIs(Plain(rest));
    if n < |rest| { assert Plain(rest)[n] == RStripNewline(rest[n]); }
  }

  lemma TableFramed(lines: seq<string>, title: string, newline: string, header: seq<string>, h: nat)
    requires h + 2 <= |lines| && TitleOf(title, Plain(lines[..h]))
    ensures FramedAt(Table(lines, title, newline, header, h, TableEnd(lines, h)), lines, h)
  {
    EndOfRows(lines, h);
    assert |lines[h + 2..TableEnd(lines, h)]| == TableEnd(lines, h) - (h + 2);
  }

  lemma TableSays(lines: seq<string>, title: string, newline: string, header: seq<string>, h: nat)
    requires h + 2 <= |lines| && Distinct(header)
    ensures RowsSay(Table(lines, title, newline, header, h, TableEnd(lines, h)).rows, header, lines[h + 2..])
  {
    var rest := lines[h + 2..];
    var n := RowCount(Plain(rest));
    RowCountIs(Plain(rest));
    assert lines[h + 2..h + 2 + n] == rest[..n];
    forall i | 0 <= i < n ensures StartsTable(RStripNewline(rest[i])) && RowSays(RowOf(header, rest[i]), header, rest[i]) {
      assert Plain(rest)[i] == RStripNewline(rest[i]);
      RowOfSays(header, rest[i]);
    }
  }

  /** What a parse of the table at line `h` gives. */
  ghost predicate ParsedAt(r: Result<Document, Error>, text: string, lines: seq<string>, h: nat) {
    h + 2 <= |lines| && if Distinct(SplitRow(RStripNewline(lines[h]))) then r.Ok? && TableAt(r.value, text, lines, h)
                        else r == Err(DuplicateColumns)
  }

  lemma TableIsAt(text: string, lines: seq<string>, h: nat)
    requires h + 2 <= |lines|
    ensures ParsedAt(ParseAt(text, lines, h), text, lines, h)
  {
    var header, title := SplitRow(RStripNewline(lines[h])), FindTitle(Plain(lines[..h]));
    FindTitleIsFirst(Plain(lines[..h]));
    TableFramed(lines, title, NewlineOf(text), header, h);
    if Distinct(header) {
      DistinctCount(header);
      TableSays(lines, title, NewlineOf(text), header, h);
    } else if |Elements(header)| == |header| {
      CountDistinct(header);
    }
  }

  /** Line `h` is the first that looks like the head of a table. */
  ghost predicate FirstHead(plain: seq<string>, h: nat) {
    HeadAt(plain, h) && forall k: nat :: k < h ==> !HeadAt(plain, k)
  }

  /**
   The first head in the text decides: with distinct column names the document is the table there, and with a repeated
   one the parse raises.
   */
  lemma ParsesFirstTable(text: string, h: nat)
    requires FirstHead(Plain(SplitLines(text)), h)
    ensures ParsedAt(Parse(text), text, SplitLines(text), h)
  {
    FirstIsFound(Plain(SplitLines(text)), h);
    ParseIsAt(text, h);
    TableIsAt(text, SplitLines(text), h);
  }

  lemma FirstIsFound(plain: seq<string>, h: nat)
    requires FirstHead(plain, h)
    ensures FindHeader(plain, 0) == h && h + 2 <= |plain|
  {
    FindHeaderIsFirst(plain, 0);
  }

  lemma ParseIsAt(text: string, h: nat)
    requires FindHeader(Plain(SplitLines(text)), 0) == h && h + 2 <= |SplitLines(text)|
    ensures Parse(text) == ParseAt(text, SplitLines(text), h)
  {
  }

  /** Without a head, blank text is a document without a table, and any other text raises. */
  lemma ParsesNoTable(text: string)
    requires forall h: nat :: !HeadAt(Plain(SplitLines(text)), h)
    ensures Parse(text) == if Strip(text) != [] then Err(NoTable) else Ok(Document([], text, [], [], [], [], "\n", []))
  {
    FindHeaderIsFirst(Plain(SplitLines(text)), 0);
  }
}

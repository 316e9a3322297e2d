/** The Python string operations the modelled code relies on: `strip`, `splitlines`, `join`, `str(n)`. */
module PyText {

  /** `str.isspace` for one character. */
  predicate IsSpace(c: char) {
    || '\t' <= c <= '\r' || '\U{1C}' <= c <= ' ' || c == '\U{85}' || c == '\U{A0}' || c == '\U{1680}'
    || '\U{2000}' <= c <= '\U{200A}' || c == '\U{2028}' || c == '\U{2029}' || c == '\U{202F}'
    || c == '\U{205F}' || c == '\U{3000}'
  }

  /** The characters `str.splitlines` breaks a line after. */
  predicate IsBreak(c: char) {
    '\n' <= c <= '\r' || '\U{1C}' <= c <= '\U{1E}' || c == '\U{85}' || c == '\U{2028}' || c == '\U{2029}'
  }

  function LStrip(s: string): (r: string)
    ensures r == [] || !IsSpace(r[0])
    ensures |r| <= |s|
  {
    if s != [] && IsSpace(s[0]) then LStrip(s[1..]) else s
  }

  function RStrip(s: string): (r: string)
    ensures r == [] || !IsSpace(r[|r| - 1])
    ensures r <= s
  {
    if s != [] && IsSpace(s[|s| - 1]) then RStrip(s[..|s| - 1]) else s
  }

  /** `s.strip()`. */
  function Strip(s: string): string {
    RStrip(LStrip(s))
  }

  /** `s.rstrip("\r\n")`. */
  function RStripNewline(s: string): (r: string)
    ensures r <= s
  {
    if s != [] && (s[|s| - 1] == '\r' || s[|s| - 1] == '\n') then RStripNewline(s[..|s| - 1]) else s
  }

  predicate Trimmed(s: string) {
    s == [] || (!IsSpace(s[0]) && !IsSpace(s[|s| - 1]))
  }

  lemma {:induction false} StripTrims(s: string)
    ensures Trimmed(Strip(s))
    ensures Trimmed(s) ==> Strip(s) == s
  {
    var l := LStrip(s);
    var r := RStrip(l);
    if r != [] { assert r[0] == l[0]; }
  }

  lemma StripPadding(s: string, left: string, right: string)
    requires Trimmed(s) && (forall c :: c in left ==> IsSpace(c)) && (forall c :: c in right ==> IsSpace(c))
    ensures Strip(left + s + right) == s
  {
    assert left + s + right == left + (s + right);
    LStripSpaces(left, s + right);
    LStripKeeps(s, right);
  }

  lemma {:induction false} LStripSpaces(left: string, s: string)
    requires forall c :: c in left ==> IsSpace(c)
    ensures LStrip(left + s) == LStrip(s)
  {
    if left == [] {
      assert left + s == s;
    } else {
      assert left[0] in left;
      assert (left + s)[1..] == left[1..] + s;
      LStripSpaces(left[1..], s);
    }
  }

  lemma {:induction false} RStripSpaces(s: string, right: string)
    requires forall c :: c in right ==> IsSpace(c)
    ensures RStrip(s + right) == RStrip(s)
  {
    if right == [] {
      assert s + right == s;
    } else {
      var t := s + right;
      assert t[|t| - 1] == right[|right| - 1] && right[|right| - 1] in right;
      assert t[..|t| - 1] == s + right[..|right| - 1];
      RStripSpaces(s, right[..|right| - 1]);
    }
  }

  lemma {:induction false} LStripKeeps(s: string, right: string)
    requires Trimmed(s) && forall c :: c in right ==> IsSpace(c)
    ensures RStrip(LStrip(s + right)) == s
  {
    if s != [] {
      assert LStrip(s + right) == s + right;
      RStripSpaces(s, right);
    } else {
      assert s + right == right;
      if right != [] {
        assert right[0] in right;
        assert s + right[1..] == right[1..];
        LStripKeeps(s, right[1..]);
      }
    }
  }

  lemma {:induction false} LStripAppend(s: string, right: string)
    requires forall c :: c in right ==> IsSpace(c)
    ensures LStrip(s + right) == if LStrip(s) == [] then [] else LStrip(s) + right
  {
    if s == [] {
      assert s + right == right == right + [];
      LStripSpaces(right, []);
    } else if IsSpace(s[0]) {
      assert (s + right)[1..] == s[1..] + right;
      LStripAppend(s[1..], right);
    }
  }

  /** White space at the end does not survive `strip`. */
  lemma StripIgnoresEnd(s: string, right: string)
    requires forall c :: c in right ==> IsSpace(c)
    ensures Strip(s + right) == Strip(s)
  {
    LStripAppend(s, right);
    if LStrip(s) != [] { RStripSpaces(LStrip(s), right); }
  }

  lemma StripIgnoresStart(left: string, s: string)
    requires forall c :: c in left ==> IsSpace(c)
    ensures Strip(left + s) == Strip(s)
  {
    LStripSpaces(left, s);
  }

  /** How `strip` cuts a text on the left, and on the right. */
  lemma {:induction false} LStripCuts(s: string) returns (left: string)
    ensures s == left + LStrip(s) && forall c :: c in left ==> IsSpace(c)
  {
    left := [];
    if s != [] && IsSpace(s[0]) {
      left := LStripCuts(s[1..]);
      left := [s[0]] + left;
    }
  }

  lemma {:induction false} RStripCuts(s: string) returns (right: string)
    ensures s == RStrip(s) + right && forall c :: c in right ==> IsSpace(c)
  {
    right := [];
    if s != [] && IsSpace(s[|s| - 1]) {
      right := RStripCuts(s[..|s| - 1]);
      right := right + [s[|s| - 1]];
    }
  }

  // ----- lines

  /** The length of the first line, its terminator included. */
  function LineEnd(s: string): (n: nat)
    requires s != []
    ensures 0 < n <= |s|
  {
    if |s| >= 2 && s[0] == '\r' && s[1] == '\n' then 2
    else if IsBreak(s[0]) || |s| == 1 then 1
    else 1 + LineEnd(s[1..])
  }

  /** `s.splitlines(keepends=True)`. */
  function SplitLines(s: string): (lines: seq<string>)
    ensures forall i :: 0 <= i < |lines| ==> lines[i] != []
  {
    if s == [] then [] else [s[..LineEnd(s)]] + SplitLines(s[LineEnd(s)..])
  }

  /** `"".join(parts)`. */
  function Concat(parts: seq<string>): string {
    if parts == [] then [] else parts[0] + Concat(parts[1..])
  }

  lemma {:induction false} LinesConcat(s: string)
    ensures Concat(SplitLines(s)) == s
  {
    if s != [] {
      LinesConcat(s[LineEnd(s)..]);
      assert SplitLines(s)[1..] == SplitLines(s[LineEnd(s)..]);
    }
  }

  lemma {:induction false} ConcatAppend(a: seq<string>, b: seq<string>)
    ensures Concat(a + b) == Concat(a) + Concat(b)
  {
    if a == [] {
      assert a + b == b;
    } else {
      ConcatAppend(a[1..], b);
      assert (a + b)[1..] == a[1..] + b;
    }
  }

  /** Text that ends a line: what follows starts a new one. */
  predicate EndsLine(s: string) {
    s == [] || s[|s| - 1] == '\n'
  }

  lemma {:induction false} LineEndAppend(a: string, b: string)
    requires a != [] && EndsLine(a)
    ensures LineEnd(a + b) == LineEnd(a)
  {
    if |a| >= 2 {
      assert (a + b)[1..] == a[1..] + b;
      if !IsBreak(a[0]) { LineEndAppend(a[1..], b); }
    }
  }

  /** Lines after complete lines are split on their own. */
  lemma {:induction false} SplitLinesAppend(a: string, b: string)
    requires EndsLine(a)
    ensures SplitLines(a + b) == SplitLines(a) + SplitLines(b)
    decreases |a|
  {
    if a == [] {
      assert a + b == b;
    } else {
      var n := LineEnd(a);
      LineEndAppend(a, b);
      assert (a + b)[..n] == a[..n];
      assert (a + b)[n..] == a[n..] + b;
      SplitLinesAppend(a[n..], b);
    }
  }

  ghost predicate NoBreak(s: string) {
    forall c :: c in s ==> !IsBreak(c)
  }

  /** A text without inner breaks, closed by a newline, is one line. */
  lemma {:induction false} OneLine(s: string)
    requires NoBreak(s)
    ensures SplitLines(s + "\n") == [s + "\n"]
  {
    var t := s + "\n";
    if s == [] {
      assert LineEnd(t) == 1 && t[1..] == [];
    } else {
      assert s[0] in s;
      OneLineEnd(s);
      assert t[|t|..] == [];
    }
    assert t[..|t|] == t;
  }

  lemma {:induction false} OneLineEnd(s: string)
    requires NoBreak(s)
    ensures LineEnd(s + "\n") == |s| + 1
  {
    if s != [] {
      assert s[0] in s;
      assert (s + "\n")[1..] == s[1..] + "\n";
      OneLineEnd(s[1..]);
    }
  }

  /** One line without its terminator, as `splitlines()` gives it. */
  function Chop(line: string): (r: string)
    ensures r <= line && |line| - 2 <= |r|
    ensures forall i :: |r| <= i < |line| ==> IsBreak(line[i])
  {
    var n := |line|;
    if n >= 2 && line[n - 2] == '\r' && line[n - 1] == '\n' then line[..n - 2]
    else if n >= 1 && IsBreak(line[n - 1]) then line[..n - 1]
    else line
  }

  lemma {:induction false} NewlinesAreSpace(raw: string)
    ensures forall c :: c in raw[|RStripNewline(raw)|..] ==> IsSpace(c)
  {
    if raw != [] && (raw[|raw| - 1] == '\r' || raw[|raw| - 1] == '\n') {
      var rest := raw[..|raw| - 1];
      NewlinesAreSpace(rest);
      assert raw[|RStripNewline(raw)|..] == rest[|RStripNewline(rest)|..] + [raw[|raw| - 1]];
    }
  }

  lemma BreaksAreSpace(s: string, n: nat)
    requires n <= |s| && forall i :: n <= i < |s| ==> IsBreak(s[i])
    ensures forall c :: c in s[n..] ==> IsSpace(c)
  {
  }

  /** What `splitlines` leaves of a line holds no break. */
  lemma {:induction false} LineBody(s: string)
    requires s != []
    ensures forall i :: 0 <= i < LineEnd(s) && IsBreak(s[i]) ==> i >= |Chop(s[..LineEnd(s)])|
  {
    if !(|s| >= 2 && s[0] == '\r' && s[1] == '\n') && !IsBreak(s[0]) && |s| > 1 {
      LineBody(s[1..]);
      var n := LineEnd(s[1..]);
      assert s[..1 + n] == [s[0]] + s[1..][..n];
      ChopStep(s[0], s[1..][..n]);
    }
  }

  lemma ChopStep(c: char, line: string)
    requires !IsBreak(c) && line != []
    ensures Chop([c] + line) == [c] + Chop(line)
  {
    var whole := [c] + line;
    assert whole[|whole| - 1] == line[|line| - 1];
    if |line| >= 2 { assert whole[|whole| - 2] == line[|line| - 2]; }
  }

  lemma {:induction false} LinesNoBreak(s: string, k: nat)
    requires k < |SplitLines(s)|
    ensures NoBreak(Chop(SplitLines(s)[k]))
    decreases |s|
  {
    if k == 0 {
      LineBody(s);
      var line := s[..LineEnd(s)];
      forall i | 0 <= i < |Chop(line)| ensures !IsBreak(Chop(line)[i]) {
        assert Chop(line)[i] == line[i] == s[i];
      }
    } else {
      LinesNoBreak(s[LineEnd(s)..], k - 1);
    }
  }

  /** A text without breaks, then a newline: its line ends there, whatever follows. */
  lemma {:induction false} LineEndsAt(body: string, newline: string, rest: string)
    requires NoBreak(body) && (newline == "\n" || newline == "\r\n")
    ensures LineEnd(body + newline + rest) == |body| + |newline|
  {
    var s := body + newline + rest;
    if body != [] {
      assert body[0] in body;
      assert s[1..] == body[1..] + newline + rest;
      LineEndsAt(body[1..], newline, rest);
    }
  }

  predicate SingleLine(s: string) {
    s != [] && LineEnd(s) == |s|
  }

  lemma {:induction false} FirstLineIsSingle(s: string)
    requires s != []
    ensures SingleLine(s[..LineEnd(s)])
  {
    var line := s[..LineEnd(s)];
    if LineEnd(s) > 1 && !(|s| >= 2 && s[0] == '\r' && s[1] == '\n') {
      FirstLineIsSingle(s[1..]);
      assert line[1..] == s[1..][..LineEnd(s[1..])];
    }
  }

  lemma {:induction false} LinesAreSingle(s: string, k: nat)
    requires k < |SplitLines(s)|
    ensures SingleLine(SplitLines(s)[k])
    decreases |s|
  {
    if k == 0 { FirstLineIsSingle(s); } else { LinesAreSingle(s[LineEnd(s)..], k - 1); }
  }

  /** Text after a line starts a new line or goes on with that one. */
  lemma {:induction false} LineEndJoin(line: string, rest: string)
    requires SingleLine(line) && rest != []
    ensures LineEnd(line + rest) == |line| || LineEnd(line + rest) == |line| + LineEnd(rest)
  {
    var s := line + rest;
    if |line| >= 2 && !(line[0] == '\r' && line[1] == '\n') {
      LineEndJoin(line[1..], rest);
      assert s[1..] == line[1..] + rest;
    } else if |line| == 1 {
      assert s[1..] == rest;
    }
  }

  /** Lines joined make at most as many lines, and as many only if they are those very lines. */
  lemma {:induction false} LinesOfPieces(pieces: seq<string>)
    requires forall k :: 0 <= k < |pieces| ==> SingleLine(pieces[k])
    ensures |SplitLines(Concat(pieces))| <= |pieces|
    ensures |SplitLines(Concat(pieces))| == |pieces| ==> SplitLines(Concat(pieces)) == pieces
    decreases |pieces|
  {
    if pieces != [] {
      LinesOfPieces(pieces[1..]);
      LinesAfter(pieces[0], Concat(pieces[1..]));
      assert pieces == [pieces[0]] + pieces[1..];
    }
  }

  lemma LinesAfter(line: string, rest: string)
    requires SingleLine(line)
    ensures SplitLines(line + rest) == [line] + SplitLines(rest) || |SplitLines(line + rest)| == |SplitLines(rest)|
  {
    var s := line + rest;
    if rest == [] {
      assert s == line && s[..|s|] == line && s[|s|..] == [];
    } else {
      LineEndJoin(line, rest);
      if LineEnd(s) == |line| {
        assert s[..|line|] == line && s[|line|..] == rest;
      } else {
        assert s[LineEnd(s)..] == rest[LineEnd(rest)..];
      }
    }
  }

  // ----- searching

  /** `s.find(sep)`. */
  function Find(s: string, sep: string): (r: int)
    ensures -1 <= r && (r >= 0 ==> r + |sep| <= |s|)
  {
    if sep <= s then 0
    else if s == [] then -1
    else
      var r := Find(s[1..], sep);
      if r < 0 then -1 else 1 + r
  }

  predicate Contains(s: string, sep: string) {
    Find(s, sep) >= 0
  }

  lemma {:induction false} Found(s: string, sep: string)
    requires Contains(s, sep)
    ensures Find(s, sep) + |sep| <= |s| && s[Find(s, sep)..Find(s, sep) + |sep|] == sep
  {
    if !(sep <= s) { Found(s[1..], sep); }
  }

  lemma {:induction false} FindFirst(s: string, sep: string, i: nat)
    requires i + |sep| <= |s| && s[i..i + |sep|] == sep
    ensures 0 <= Find(s, sep) <= i
  {
    if !(sep <= s) && i > 0 {
      assert s[1..][i - 1..i - 1 + |sep|] == s[i..i + |sep|];
      FindFirst(s[1..], sep, i - 1);
    }
  }

  lemma SliceOfPrefix(s: string, n: nat, i: nat, j: nat)
    requires i <= j <= n <= |s|
    ensures s[..n][i..j] == s[i..j]
  {
  }

  lemma FoundInPrefix(s: string, sep: string, n: nat)
    requires n <= |s| && Find(s[..n], sep) >= 0
    ensures 0 <= Find(s, sep) <= Find(s[..n], sep)
  {
    var j := Find(s[..n], sep);
    Found(s[..n], sep);
    SliceOfPrefix(s, n, j, j + |sep|);
    FindFirst(s, sep, j);
  }

  /** A prefix long enough to hold the first occurrence finds it, and no other prefix finds anything. */
  lemma FindInPrefix(s: string, sep: string, n: nat)
    requires n <= |s|
    ensures Find(s[..n], sep) == if Find(s, sep) >= 0 && Find(s, sep) + |sep| <= n then Find(s, sep) else -1
  {
    var i := Find(s, sep);
    if i >= 0 { Found(s, sep); }
    if i >= 0 && i + |sep| <= n {
      SliceOfPrefix(s, n, i, i + |sep|);
      FindFirst(s[..n], sep, i);
    }
    if Find(s[..n], sep) >= 0 {
      Found(s[..n], sep);
      FoundInPrefix(s, sep, n);
    }
  }

  /** `s.split(sep)`. */
  function Split(s: string, sep: string): (parts: seq<string>)
    requires sep != []
    ensures parts != []
  {
    var i := Find(s, sep);
    if i < 0 then [s]
    else
      Found(s, sep);
      [s[..i]] + Split(s[i + |sep|..], sep)
  }

  /** The first part of a prefix long enough to be split is the first part of the whole. */
  lemma FirstPart(s: string, n: nat, sep: string)
    requires sep != [] && n <= |s| && Contains(s[..n], sep)
    ensures 0 <= Find(s, sep) && Find(s, sep) + |sep| <= n
    ensures Split(s[..n], sep)[0] == s[..Find(s, sep)]
    ensures s[Find(s, sep)..Find(s, sep) + |sep|] == sep
  {
    FindInPrefix(s, sep, n);
    Found(s, sep);
    assert s[..n][..Find(s, sep)] == s[..Find(s, sep)];
  }

  /** `sep.join(parts)`. */
  function Join(parts: seq<string>, sep: string): string {
    if parts == [] then []
    else if |parts| == 1 then parts[0]
    else parts[0] + sep + Join(parts[1..], sep)
  }

  // ----- joining and splitting

  lemma {:induction false} NotFound(s: string, c: char)
    ensures Find(s, [c]) < 0 <==> c !in s
    ensures Find(s, [c]) >= 0 ==> s[Find(s, [c])] == c && c !in s[..Find(s, [c])]
  {
    if s != [] {
      assert [c] <= s <==> s[0] == c;
      assert s == [s[0]] + s[1..];
      if s[0] != c {
        NotFound(s[1..], c);
        if Find(s, [c]) >= 0 { assert s[..Find(s, [c])] == [s[0]] + s[1..][..Find(s[1..], [c])]; }
      }
    }
  }

  /** Every part ends where its separator begins, so no part holds one or runs into one. */
  predicate Separated(parts: seq<string>, sep: string) {
    && parts != [] && !Contains(parts[|parts| - 1], sep)
    && forall i :: 0 <= i < |parts| - 1 ==> Find(parts[i] + sep, sep) == |parts[i]|
  }

  lemma JoinCons(part: string, rest: seq<string>, sep: string)
    requires rest != []
    ensures Join([part] + rest, sep) == part + sep + Join(rest, sep)
  {
    assert ([part] + rest)[1..] == rest;
  }

  lemma FindAtEnd(part: string, rest: string, sep: string)
    requires Find(part + sep, sep) == |part|
    ensures Find(part + sep + rest, sep) == |part|
  {
    var s := part + sep + rest;
    assert s[..|part| + |sep|] == part + sep;
    FindInPrefix(s, sep, |part| + |sep|);
  }

  lemma SplitFirst(part: string, rest: string, sep: string)
    requires sep != []
    requires Find(part + sep, sep) == |part|
    ensures Split(part + sep + rest, sep) == [part] + Split(rest, sep)
  {
    var s := part + sep + rest;
    FindAtEnd(part, rest, sep);
    assert s[..|part|] == part && s[|part| + |sep|..] == rest;
  }

  lemma FirstOfParts(parts: seq<string>)
    requires parts != []
    ensures parts == [parts[0]] + parts[1..]
  {
  }

  lemma {:induction false} SplitJoined(parts: seq<string>, sep: string)
    requires sep != []
    requires Separated(parts, sep)
    ensures Split(Join(parts, sep), sep) == parts
  {
    if |parts| > 1 {
      FirstOfParts(parts);
      JoinCons(parts[0], parts[1..], sep);
      SplitJoined(parts[1..], sep);
      SplitFirst(parts[0], Join(parts[1..], sep), sep);
    }
  }

  lemma CutAtFound(s: string, sep: string)
    requires Contains(s, sep)
    ensures var i := Find(s, sep);
      i + |sep| <= |s| && s == s[..i] + sep + s[i + |sep|..] && Find(s[..i] + sep, sep) == i
  {
    var i := Find(s, sep);
    Found(s, sep);
    assert s[..i + |sep|] == s[..i] + sep;
    FindInPrefix(s, sep, i + |sep|);
  }

  /** What is split is separated and joins to what it was. */
  lemma {:induction false} SplitSeparates(s: string, sep: string)
    requires sep != []
    ensures Separated(Split(s, sep), sep) && Join(Split(s, sep), sep) == s
    decreases |s|
  {
    var i := Find(s, sep);
    if i >= 0 {
      CutAtFound(s, sep);
      var rest := s[i + |sep|..];
      SplitSeparates(rest, sep);
      JoinCons(s[..i], Split(rest, sep), sep);
      SeparatedCons(s[..i], Split(rest, sep), sep);
    }
  }

  lemma SeparatedCons(part: string, parts: seq<string>, sep: string)
    requires Separated(parts, sep) && Find(part + sep, sep) == |part|
    ensures Separated([part] + parts, sep)
  {
    var all := [part] + parts;
    forall i | 0 <= i < |all| - 1 ensures Find(all[i] + sep, sep) == |all[i]| {
      if i > 0 { assert all[i] == parts[i - 1]; }
    }
  }

  predicate StartsWith(s: string, prefix: string) {
    prefix <= s
  }

  // ----- numbers

  function Digit(d: nat): char
    requires d < 10
  {
    "0123456789"[d]
  }

  /** `str(n)`. */
  function Decimal(n: nat): (s: string)
    ensures s != []
  {
    if n < 10 then [Digit(n)] else Decimal(n / 10) + [Digit(n % 10)]
  }

  lemma {:induction false} DecimalInjective(m: nat, n: nat)
    requires Decimal(m) == Decimal(n)
    ensures m == n
  {
    var s := Decimal(m);
    assert s[|s| - 1] == Digit(m % 10) == Digit(n % 10);
    assert m % 10 == n % 10;
    if m >= 10 && n >= 10 {
      assert Decimal(m / 10) == s[..|s| - 1] == Decimal(n / 10);
      DecimalInjective(m / 10, n / 10);
    }
  }
}

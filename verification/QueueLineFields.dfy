/**
 What the parsed fields of a line queue are: printing a row in canonical form and parsing it again gives back its
 task, values and free text exactly when they have a form that can be checked beforehand.
 */
module QueueLineFields {
  import opened Basics
  import opened PyText
  import opened QueueLine
  import opened Seqs

  const SEP := " | "

  // ----- the run of blanks before free text

  predicate Blank(c: char) {
    c == ' ' || c == '\t'
  }

  /** Two or more blanks from `i` on, and text at `j`. */
  predicate GapAt(value: string, i: nat, j: nat) {
    i + 2 <= j < |value| && (forall k :: i <= k < j ==> Blank(value[k])) && !IsSpace(value[j])
  }

  ghost predicate HasGap(value: string) {
    exists i: nat, j: nat :: GapAt(value, i, j)
  }

  lemma {:induction false} BlankRunIs(s: string)
    ensures forall k :: 0 <= k < BlankRun(s) ==> Blank(s[k])
    ensures BlankRun(s) < |s| ==> !Blank(s[BlankRun(s)])
  {
    if s != [] && Blank(s[0]) {
      BlankRunIs(s[1..]);
      forall k | 0 <= k < BlankRun(s) ensures Blank(s[k]) {
        if k > 0 { assert s[k] == s[1..][k - 1]; }
      }
    }
  }

  lemma GapAtStart(value: string, j: nat)
    requires GapAt(value, 0, j)
    ensures BlankRun(value) == j
  {
    BlankRunIs(value);
  }

  /** Where `FindTail` cuts: before the first gap, and at the text after it. */
  ghost predicate CutAtGap(value: string, found: (string, string)) {
    && |found.0| + 2 + |found.1| <= |value| && found.0 == value[..|found.0|] && found.1 == value[|value| - |found.1|..]
    && GapAt(value, |found.0|, |value| - |found.1|)
    && forall i: nat, j: nat :: GapAt(value, i, j) ==> |found.0| <= i
  }

  lemma GapLater(value: string, i: nat, j: nat)
    requires GapAt(value, i, j) && i > 0
    ensures GapAt(value[1..], i - 1, j - 1)
  {
    assert forall k :: i - 1 <= k < j - 1 ==> value[1..][k] == value[k + 1];
  }

  lemma GapEarlier(value: string, i: nat, j: nat)
    requires value != [] && GapAt(value[1..], i, j)
    ensures GapAt(value, i + 1, j + 1)
  {
    forall k | i + 1 <= k < j + 1 ensures Blank(value[k]) {
      assert value[k] == value[1..][k - 1];
    }
  }

  lemma CutNow(value: string)
    requires 2 <= BlankRun(value) < |value| && !IsSpace(value[BlankRun(value)])
    ensures HasGap(value) && CutAtGap(value, ([], value[BlankRun(value)..]))
  {
    BlankRunIs(value);
    assert GapAt(value, 0, BlankRun(value));
  }

  lemma GapsLater(value: string)
    requires value != [] && forall j: nat :: !GapAt(value, 0, j)
    ensures HasGap(value) <==> HasGap(value[1..])
  {
    if HasGap(value) {
      var i: nat, j: nat :| GapAt(value, i, j);
      GapLater(value, i, j);
    }
    if HasGap(value[1..]) {
      var i: nat, j: nat :| GapAt(value[1..], i, j);
      GapEarlier(value, i, j);
    }
  }

  lemma CutLater(value: string, found: (string, string))
    requires value != [] && (forall j: nat :: !GapAt(value, 0, j)) && CutAtGap(value[1..], found)
    ensures CutAtGap(value, ([value[0]] + found.0, found.1))
  {
    GapEarlier(value, |found.0|, |value[1..]| - |found.1|);
    forall i: nat, j: nat | GapAt(value, i, j) ensures |found.0| + 1 <= i {
      GapLater(value, i, j);
    }
  }

  /** A value is cut exactly if it has a gap, and then at its first one. */
  lemma {:induction false} FindTailCuts(value: string)
    ensures FindTail(value).Some? <==> HasGap(value)
    ensures FindTail(value).Some? ==> CutAtGap(value, FindTail(value).value)
  {
    if value != [] {
      if 2 <= BlankRun(value) < |value| && !IsSpace(value[BlankRun(value)]) {
        CutNow(value);
      } else {
        forall j: nat ensures !GapAt(value, 0, j) {
          if GapAt(value, 0, j) { GapAtStart(value, j); }
        }
        GapsLater(value);
        FindTailCuts(value[1..]);
        if FindTail(value[1..]).Some? { CutLater(value, FindTail(value[1..]).value); }
      }
    }
  }

  lemma OnlyGap(value: string, tail: string, i: nat, j: nat)
    requires Trimmed(value) && !HasGap(value) && tail != [] && !IsSpace(tail[0])
    requires GapAt(value + "  " + tail, i, j)
    ensures i >= |value| && (i == |value| ==> j == |value| + 2)
  {
    var s := value + "  " + tail;
    assert s[|value| + 2] == tail[0] && !Blank(tail[0]);
    assert value != [] ==> s[|value| - 1] == value[|value| - 1] && !Blank(s[|value| - 1]);
    assert forall k :: 0 <= k < |value| ==> s[k] == value[k];
    assert j < |value| ==> GapAt(value, i, j);
  }

  /** Free text after a value without a gap is found, and so is where the value ends. */
  lemma TailFound(value: string, tail: string)
    requires Trimmed(value) && !HasGap(value) && tail != [] && !IsSpace(tail[0])
    ensures FindTail(value + "  " + tail) == Some((value, tail))
  {
    var s := value + "  " + tail;
    FindTailCuts(s);
    assert GapAt(s, |value|, |value| + 2);
    var found := FindTail(s).value;
    OnlyGap(value, tail, |found.0|, |s| - |found.1|);
    assert found.0 == value && found.1 == tail;
  }

  // ----- one field

  lemma FindColon(key: string, rest: string)
    requires ':' !in key
    ensures Find(key + ":" + rest, ":") == |key|
  {
    var s := key + ":" + rest;
    NotFound(s, ':');
    assert s[|key|] == ':';
    var i := Find(s, ":");
    assert s[|key|..|key| + |":"|] == ":";
    FindFirst(s, ":", |key|);
    assert forall k :: 0 <= k < |key| ==> s[k] == key[k] && key[k] in key;
  }

  /** A field is a pair of what stands before and after its first colon, unless free text ends it. */
  lemma FieldOfPair(key: string, rest: string)
    requires ':' !in key
    ensures FieldOf(key + ":" + rest) == match FindTail(rest)
      case Some(found) => Last(Strip(key), Strip(found.0), found.1)
      case None => Pair(Strip(key), Strip(rest))
  {
    var s := key + ":" + rest;
    FindColon(key, rest);
    assert s[..|key|] == key && s[|key| + 1..] == rest;
  }

  // ----- the fields of a row

  /** The fields as they are printed. */
  function Fields(values: seq<(string, string)>, tail: string): seq<string> {
    WithTail(Pairs(values), tail)
  }

  predicate PairForm(pair: (string, string)) {
    Trimmed(pair.0) && ':' !in pair.0 && Trimmed(pair.1)
  }

  /** Trimmed keys without a colon, trimmed values without a gap, and free text that cannot be taken for either. */
  ghost predicate FieldsForm(values: seq<(string, string)>, tail: string) {
    && (forall pair :: pair in values ==> PairForm(pair) && !HasGap(pair.1))
    && (tail != [] ==> if values == [] then ':' !in tail else !IsSpace(tail[0]))
  }

  function Printed(pair: (string, string)): string {
    pair.0 + ":" + pair.1
  }

  lemma {:induction false} PairsCons(pair: (string, string), values: seq<(string, string)>)
    ensures Pairs([pair] + values) == [Printed(pair)] + Pairs(values)
  {
    if values == [] {
      assert [pair] + values == [pair] && [pair][..0] == [];
    } else {
      var t, x := values[..|values| - 1], values[|values| - 1];
      PairsCons(pair, t);
      assert ([pair] + values)[..|values|] == [pair] + t;
    }
  }

  lemma FieldsCons(pair: (string, string), values: seq<(string, string)>, tail: string)
    ensures values != [] || tail == [] ==> Fields([pair] + values, tail) == [Printed(pair)] + Fields(values, tail)
    ensures values == [] && tail != [] ==> Fields([pair] + values, tail) == [Printed(pair) + "  " + tail]
  {
    PairsCons(pair, values);
  }

  lemma FirstPair(values: seq<(string, string)>)
    requires values != []
    ensures values == [values[0]] + values[1..]
  {
  }

  lemma LastReads(pair: (string, string), tail: string)
    requires PairForm(pair) && !HasGap(pair.1) && tail != [] && !IsSpace(tail[0])
    ensures FieldOf(Printed(pair) + "  " + tail) == Last(pair.0, pair.1, tail)
  {
    StripTrims(pair.0);
    StripTrims(pair.1);
    assert Printed(pair) + "  " + tail == pair.0 + ":" + (pair.1 + "  " + tail);
    FieldOfPair(pair.0, pair.1 + "  " + tail);
    TailFound(pair.1, tail);
  }

  lemma PairReads(pair: (string, string))
    requires PairForm(pair) && !HasGap(pair.1)
    ensures FieldOf(Printed(pair)) == Pair(pair.0, pair.1)
  {
    StripTrims(pair.0);
    StripTrims(pair.1);
    FieldOfPair(pair.0, pair.1);
    FindTailCuts(pair.1);
  }

  lemma FieldsOfCons(field: string, rest: seq<string>)
    ensures FieldsOf([field] + rest) ==
      match FieldOf(field)
      case Text(tail) => ([], tail)
      case Last(key, value, tail) => ([(key, value)], tail)
      case Pair(key, value) => ([(key, value)] + FieldsOf(rest).0, FieldsOf(rest).1)
  {
    assert ([field] + rest)[1..] == rest;
  }

  /** Fields of that form are read back as they were. */
  lemma {:induction false} FormReads(values: seq<(string, string)>, tail: string)
    requires FieldsForm(values, tail)
    ensures FieldsOf(Fields(values, tail)) == (values, tail)
  {
    if values == [] {
      if tail != [] { NotFound(tail, ':'); }
    } else {
      var pair, rest := values[0], values[1..];
      FirstPair(values);
      FieldsCons(pair, rest, tail);
      assert pair in values;
      if rest == [] && tail != [] {
        LastReads(pair, tail);
        FieldsOfCons(Printed(pair) + "  " + tail, []);
        assert [Printed(pair) + "  " + tail] + [] == [Printed(pair) + "  " + tail];
        assert values == [pair] == [(pair.0, pair.1)];
      } else {
        PairReads(pair);
        FormReads(rest, tail);
        FieldsOfCons(Printed(pair), Fields(rest, tail));
      }
    }
  }

  // ----- nothing else is

  lemma {:induction false} StripNoLonger(s: string)
    ensures |Strip(s)| <= |s| && (|Strip(s)| == |s| ==> Strip(s) == s)
  {
  }

  /** A pair that is printed and read as itself has the form. */
  lemma PairHasForm(pair: (string, string))
    requires FieldOf(Printed(pair)) == Pair(pair.0, pair.1)
    ensures PairForm(pair) && !HasGap(pair.1)
  {
    var s := Printed(pair);
    var i := KeyIsWhole(pair.0, pair.1);
    assert s[i + 1..] == pair.1;
    StripTrims(pair.1);
    FindTailCuts(pair.1);
  }

  /** If the key read from a printed field is the key, the first colon comes right after it. */
  lemma KeyIsWhole(key: string, rest: string) returns (i: nat)
    requires var s := key + ":" + rest; Find(s, ":") >= 0 ==> Strip(s[..Find(s, ":")]) == key
    ensures i == |key| && Find(key + ":" + rest, ":") == i && Trimmed(key) && ':' !in key
  {
    var s := key + ":" + rest;
    assert s[|key|..|key| + |":"|] == ":";
    FindFirst(s, ":", |key|);
    i := Find(s, ":");
    StripNoLonger(s[..i]);
    assert s[..i] == key;
    NotFound(s, ':');
    StripTrims(key);
  }

  lemma NoGapWithin(value: string, tail: string)
    requires forall i: nat, j: nat :: GapAt(value + ("  " + tail), i, j) ==> |value| <= i
    ensures !HasGap(value)
  {
    GapsOfPrefix(value, "  " + tail);
  }

  lemma CutIsWhole(value: string, tail: string, found: (string, string))
    requires CutAtGap(value + ("  " + tail), found) && Strip(found.0) == value && found.1 == tail
    ensures |found.0| == |value| && tail != [] && !IsSpace(tail[0])
  {
    var s := value + ("  " + tail);
    StripNoLonger(found.0);
    assert s[|s| - |tail|] == tail[0];
  }

  lemma TailIsWhole(value: string, tail: string)
    requires FindTail(value + "  " + tail).Some?
    requires var found := FindTail(value + "  " + tail).value; Strip(found.0) == value && found.1 == tail
    ensures Trimmed(value) && !HasGap(value) && tail != [] && !IsSpace(tail[0])
  {
    assert value + "  " + tail == value + ("  " + tail);
    var found := FindTail(value + "  " + tail).value;
    FindTailCuts(value + "  " + tail);
    CutIsWhole(value, tail, found);
    StripTrims(found.0);
    NoGapWithin(value, tail);
  }

  lemma LastHasForm(pair: (string, string), tail: string)
    requires FieldOf(Printed(pair) + "  " + tail) == Last(pair.0, pair.1, tail)
    ensures PairForm(pair) && !HasGap(pair.1) && tail != [] && !IsSpace(tail[0])
  {
    var rest := pair.1 + "  " + tail;
    assert Printed(pair) + "  " + tail == pair.0 + ":" + rest;
    var i := KeyIsWhole(pair.0, rest);
    assert (pair.0 + ":" + rest)[i + 1..] == rest;
    TailIsWhole(pair.1, tail);
  }

  lemma GapsOfPrefix(value: string, rest: string)
    ensures forall i: nat, j: nat :: GapAt(value, i, j) ==> GapAt(value + rest, i, j) && i < |value|
  {
    forall i: nat, j: nat | GapAt(value, i, j) ensures GapAt(value + rest, i, j) {
      assert forall k :: i <= k <= j ==> (value + rest)[k] == value[k];
    }
  }

  /** Fields that are read back as they were have the form. */
  lemma {:induction false} ReadHasForm(values: seq<(string, string)>, tail: string)
    requires FieldsOf(Fields(values, tail)) == (values, tail)
    ensures FieldsForm(values, tail)
  {
    if values == [] {
      if tail != [] {
        FieldsOfCons(tail, []);
        assert [tail] + [] == [tail];
        NotFound(tail, ':');
      }
    } else {
      var pair, rest := values[0], values[1..];
      FirstPair(values);
      FieldsCons(pair, rest, tail);
      if rest == [] && tail != [] {
        FieldsOfCons(Printed(pair) + "  " + tail, []);
        assert [Printed(pair) + "  " + tail] + [] == [Printed(pair) + "  " + tail];
        LastHasForm(pair, tail);
      } else {
        FieldsOfCons(Printed(pair), Fields(rest, tail));
        PairThenRest(pair, rest, tail);
        PairHasForm(pair);
        ReadHasForm(rest, tail);
      }
    }
  }

  lemma PairThenRest(pair: (string, string), rest: seq<(string, string)>, tail: string)
    requires rest != [] || tail == []
    requires FieldsOf([Printed(pair)] + Fields(rest, tail)) == ([pair] + rest, tail)
    ensures FieldOf(Printed(pair)) == Pair(pair.0, pair.1) && FieldsOf(Fields(rest, tail)) == (rest, tail)
  {
    FieldsOfCons(Printed(pair), Fields(rest, tail));
    assert ([pair] + rest)[0] == pair && ([pair] + rest)[1..] == rest;
    var field := FieldOf(Printed(pair));
    if field.Pair? {
      var more := FieldsOf(Fields(rest, tail)).0;
      assert ([(field.key, field.value)] + more)[0] == (field.key, field.value);
      assert ([(field.key, field.value)] + more)[1..] == more;
    } else {
      LastHasTail(Printed(pair));
    }
  }

  lemma LastHasTail(field: string)
    ensures FieldOf(field).Last? ==> FieldOf(field).tail != []
  {
    var i := Find(field, ":");
    if i >= 0 { FindTailCuts(field[i + 1..]); }
  }

  /** The printed fields are read back if and only if they have the form. */
  lemma FieldsReadIff(values: seq<(string, string)>, tail: string)
    ensures FieldsOf(Fields(values, tail)) == (values, tail) <==> FieldsForm(values, tail)
  {
    if FieldsForm(values, tail) { FormReads(values, tail); }
    if FieldsOf(Fields(values, tail)) == (values, tail) { ReadHasForm(values, tail); }
  }

  // ----- reading shortens

  function Weight(parts: seq<string>): nat {
    if parts == [] then 0 else |parts[0]| + |SEP| + Weight(parts[1..])
  }

  lemma {:induction false} JoinWeight(parts: seq<string>)
    requires parts != []
    ensures |Join(parts, SEP)| + |SEP| == Weight(parts)
  {
    if |parts| > 1 { JoinWeight(parts[1..]); }
  }

  lemma WeightCons(part: string, parts: seq<string>)
    ensures Weight([part] + parts) == |part| + |SEP| + Weight(parts)
  {
    assert ([part] + parts)[1..] == parts;
  }

  ghost predicate SameShape(a: seq<string>, b: seq<string>) {
    |a| == |b| && forall i :: 0 <= i < |a| ==> |a[i]| == |b[i]|
  }

  lemma ShapeCons(x: string, a: seq<string>, y: string, b: seq<string>)
    requires |x| == |y| && SameShape(a, b)
    ensures SameShape([x] + a, [y] + b)
  {
  }

  /** Joined parts of the same lengths are the same parts. */
  lemma {:induction false} SameJoin(a: seq<string>, b: seq<string>)
    requires a != [] && SameShape(a, b) && Join(a, SEP) == Join(b, SEP)
    ensures a == b
  {
    if |a| > 1 {
      FirstOfParts(a);
      FirstOfParts(b);
      JoinCons(a[0], a[1..], SEP);
      JoinCons(b[0], b[1..], SEP);
      var s := Join(a, SEP);
      assert s[..|a[0]|] == a[0] == b[0];
      assert s[|a[0]| + |SEP|..] == Join(a[1..], SEP) == Join(b[1..], SEP);
      SameJoin(a[1..], b[1..]);
    } else {
      assert a == [a[0]] && b == [b[0]];
    }
  }

  lemma TailNoLonger(value: string)
    ensures match FindTail(value)
      case Some(found) => |Strip(found.0)| + 2 + |found.1| <= |value|
      case None => |Strip(value)| <= |value|
  {
    FindTailCuts(value);
    match FindTail(value)
    case Some(found) => StripNoLonger(found.0);
    case None => StripNoLonger(value);
  }

  lemma FieldNoLonger(field: string)
    ensures match FieldOf(field)
      case Text(tail) => tail == field
      case Last(key, value, tail) => |key| + 1 + |value| + 2 + |tail| <= |field|
      case Pair(key, value) => |key| + 1 + |value| <= |field|
  {
    var i := Find(field, ":");
    if i >= 0 {
      StripNoLonger(field[..i]);
      TailNoLonger(field[i + 1..]);
    }
  }

  /** Printing what was read is no longer than what was read, and as long only if every field is as long. */
  ghost predicate NoLonger(printed: seq<string>, fields: seq<string>) {
    Weight(printed) <= Weight(fields) && (Weight(printed) == Weight(fields) ==> SameShape(printed, fields))
  }

  lemma NoLongerCons(x: string, a: seq<string>, y: string, b: seq<string>)
    requires |x| <= |y| && NoLonger(a, b)
    ensures NoLonger([x] + a, [y] + b)
  {
    WeightCons(x, a);
    WeightCons(y, b);
    if Weight([x] + a) == Weight([y] + b) { ShapeCons(x, a, y, b); }
  }

  lemma NoLongerAlone(x: string, y: string, b: seq<string>)
    requires |x| <= |y|
    ensures NoLonger([x], [y] + b)
  {
    WeightCons(x, []);
    WeightCons(y, b);
    assert [x] + [] == [x];
    if b != [] { FirstOfParts(b); }
  }

  lemma {:induction false} ReadNoLonger(fields: seq<string>)
    ensures NoLonger(Fields(FieldsOf(fields).0, FieldsOf(fields).1), fields)
  {
    if fields != [] {
      var first, rest := fields[0], fields[1..];
      FirstOfParts(fields);
      FieldNoLonger(first);
      match FieldOf(first)
      case Text(tail) =>
        if tail != [] { NoLongerAlone(tail, first, rest); }
      case Last(key, value, tail) =>
        LastHasTail(first);
        FieldsCons((key, value), [], tail);
        assert [(key, value)] + [] == [(key, value)];
        NoLongerAlone(Printed((key, value)) + "  " + tail, first, rest);
      case Pair(key, value) =>
        ReadNoLonger(rest);
        PairNoLonger((key, value), FieldsOf(rest).0, FieldsOf(rest).1, first, rest);
    }
  }

  lemma PairNoLonger(pair: (string, string), values: seq<(string, string)>, tail: string, first: string, rest: seq<string>)
    requires |Printed(pair)| <= |first| && NoLonger(Fields(values, tail), rest)
    ensures NoLonger(Fields([pair] + values, tail), [first] + rest)
  {
    FieldsCons(pair, values, tail);
    if values != [] || tail == [] {
      NoLongerCons(Printed(pair), Fields(values, tail), first, rest);
    } else {
      WeightCons(Printed(pair) + "  " + tail, []);
      WeightCons(tail, []);
      WeightCons(first, rest);
      assert [tail] + [] == [tail] && [Printed(pair) + "  " + tail] + [] == [Printed(pair) + "  " + tail];
    }
  }

  // ----- a canonical line

  function Parts(row: Row): seq<string> {
    [row.task] + Fields(row.values, row.tail)
  }

  function Body(row: Row): string {
    Join(Parts(row), SEP)
  }

  /** The text parses into one row, and the row has the task, the values and the free text of the one printed. */
  ghost predicate ReadsBack(row: Row) {
    var q := Parse(Canonical(row));
    && |q.rows| == 1 && q.layout == [Item(0)] && q.rows[0].raw == Canonical(row)
    && q.rows[0].task == row.task && q.rows[0].values == row.values && q.rows[0].tail == row.tail
  }

  /**
   The form: a trimmed task that is no comment, at least one field, fields of their form, no line break, and no
   separator in or across the parts.
   */
  ghost predicate RowForm(row: Row) {
    && Trimmed(row.task) && !StartsWith(row.task, "#") && (row.values != [] || row.tail != [])
    && FieldsForm(row.values, row.tail) && Separated(Parts(row), SEP) && NoBreak(Body(row))
  }

  lemma ParsesAlone(text: string, item: string -> bool, row: string -> Row)
    ensures Build([text], item, row) == if item(text) then LineQueue([row(text)], [], [], [Item(0)]) else LineQueue([], [text], [], [Raw(text)])
  {
    assert [text][..0] == [];
  }

  lemma OneRowIff(text: string)
    ensures (|Parse(text).rows| == 1 && Parse(text).layout == [Item(0)] && Parse(text).rows[0].raw == text)
       <==> SplitLines(text) == [text] && IsItem(text)
    ensures SplitLines(text) == [text] && IsItem(text) ==> Parse(text).rows == [RowOf(text)]
  {
    ParsesAlone(text, IsItem, RowOf);
    ParseLaysOut(text);
    if |SplitLines(text)| == 1 {
      var line := SplitLines(text)[0];
      LinesConcat(text);
      assert Concat([line]) == line + Concat([]) == line;
      assert SplitLines(text) == [line];
    }
  }

  lemma {:induction false} NewlineStripped(body: string)
    requires body == [] || (body[|body| - 1] != '\r' && body[|body| - 1] != '\n')
    ensures RStripNewline(body + "\n") == body
  {
    assert (body + "\n")[..|body|] == body;
  }

  lemma FilledStrip(s: string, i: nat)
    requires i < |s| && !IsSpace(s[i])
    ensures Strip(s) != []
  {
    var left := LStripCuts(s);
    var right := RStripCuts(LStrip(s));
    assert Strip(s) == [] ==> s == left + right;
    assert s[i] in s;
  }

  lemma StartsTrimmed(task: string, rest: string)
    requires Trimmed(task)
    ensures LStrip(task + SEP + rest) == if task == [] then "| " + rest else task + SEP + rest
  {
    var s := task + SEP + rest;
    if task == [] { assert s[1..] == "| " + rest; }
  }

  /** A line that splits into parts of the form is an item. */
  lemma FormIsItem(row: Row)
    requires Trimmed(row.task) && !StartsWith(row.task, "#") && Fields(row.values, row.tail) != [] && Separated(Parts(row), SEP)
    ensures !Skipped(Body(row)) && Contains(Body(row), SEP)
  {
    var fields := Fields(row.values, row.tail);
    var rest := Join(fields, SEP);
    JoinCons(row.task, fields, SEP);
    SplitJoined(Parts(row), SEP);
    assert Body(row) == row.task + SEP + rest;
    assert Body(row)[|row.task| + 1] == '|';
    FilledStrip(Body(row), |row.task| + 1);
    StartsTrimmed(row.task, rest);
  }

  lemma FieldsFilled(values: seq<(string, string)>, tail: string)
    ensures Fields(values, tail) == [] <==> values == [] && tail == []
  {
  }

  lemma BreakFreeEnd(s: string)
    requires NoBreak(s)
    ensures s == [] || (s[|s| - 1] != '\r' && s[|s| - 1] != '\n')
  {
    if s != [] { assert s[|s| - 1] in s; }
  }

  lemma FormReadsBack(row: Row)
    requires RowForm(row)
    ensures ReadsBack(row)
  {
    var body, text := Body(row), Canonical(row);
    OneLine(body);
    BreakFreeEnd(body);
    NewlineStripped(body);
    FieldsFilled(row.values, row.tail);
    FormIsItem(row);
    OneRowIff(text);
    SplitJoined(Parts(row), SEP);
    StripTrims(row.task);
    FormReads(row.values, row.tail);
    assert Parts(row)[1..] == Fields(row.values, row.tail);
  }

  /** A line read as the row is the row's canonical line. */
  lemma ReadIsCanonical(row: Row, line: string)
    requires |line| <= |Body(row)|
    requires Strip(Split(line, SEP)[0]) == row.task && FieldsOf(Split(line, SEP)[1..]) == (row.values, row.tail)
    ensures |line| == |Body(row)| && (line == Body(row) ==> Split(line, SEP) == Parts(row))
  {
    var parts := Split(line, SEP);
    SplitSeparates(line, SEP);
    JoinWeight(parts);
    JoinWeight(Parts(row));
    FirstOfParts(parts);
    StripNoLonger(parts[0]);
    ReadNoLonger(parts[1..]);
    NoLongerCons(row.task, Fields(row.values, row.tail), parts[0], parts[1..]);
    if line == Body(row) { SameJoin(Parts(row), parts); }
  }

  /** One line that ends in a newline has no break before it, apart from a carriage return. */
  lemma SingleBody(body: string)
    requires SplitLines(body + "\n") == [body + "\n"]
    requires body == [] || (body[|body| - 1] != '\r' && body[|body| - 1] != '\n')
    ensures NoBreak(body)
  {
    LinesNoBreak(body + "\n", 0);
    assert Chop(body + "\n") == body;
  }

  lemma StrippedBody(body: string)
    requires SplitLines(body + "\n") == [body + "\n"] && RStripNewline(body + "\n") == body
    ensures NoBreak(body)
  {
    LineHasNoReturn(body + "\n");
    SingleBody(body);
  }

  lemma PartsHaveForm(row: Row)
    requires Split(Body(row), SEP) == Parts(row) && !Skipped(Body(row)) && Contains(Body(row), SEP)
    requires Strip(row.task) == row.task && FieldsOf(Fields(row.values, row.tail)) == (row.values, row.tail)
    ensures Trimmed(row.task) && !StartsWith(row.task, "#") && (row.values != [] || row.tail != [])
    ensures FieldsForm(row.values, row.tail) && Separated(Parts(row), SEP)
  {
    SplitSeparates(Body(row), SEP);
    StripTrims(row.task);
    ReadHasForm(row.values, row.tail);
    FieldsFilled(row.values, row.tail);
    JoinCons(row.task, Fields(row.values, row.tail), SEP);
    StartsTrimmed(row.task, Join(Fields(row.values, row.tail), SEP));
  }

  /** The row is what its own body is read as, line and all. */
  ghost predicate ReadFromBody(row: Row) {
    var body := Body(row);
    && SplitLines(body + "\n") == [body + "\n"] && RStripNewline(body + "\n") == body
    && !Skipped(body) && Contains(body, SEP) && Split(body, SEP) == Parts(row)
    && Strip(row.task) == row.task && FieldsOf(Fields(row.values, row.tail)) == (row.values, row.tail)
  }

  lemma BackFromBody(row: Row)
    requires ReadsBack(row)
    ensures ReadFromBody(row)
  {
    var text := Canonical(row);
    OneRowIff(text);
    var line := RStripNewline(text);
    assert line <= text && |line| <= |Body(row)|;
    ReadIsCanonical(row, line);
    assert line == Body(row);
    assert Parts(row)[1..] == Fields(row.values, row.tail);
  }

  lemma BodyHasForm(row: Row)
    requires ReadFromBody(row)
    ensures RowForm(row)
  {
    PartsHaveForm(row);
    StrippedBody(Body(row));
  }

  lemma {:induction false} LineHasNoReturn(s: string)
    ensures var line := RStripNewline(s); line == [] || (line[|line| - 1] != '\r' && line[|line| - 1] != '\n')
  {
    if s != [] && (s[|s| - 1] == '\r' || s[|s| - 1] == '\n') { LineHasNoReturn(s[..|s| - 1]); }
  }

  /**
   The other direction of the codec: a row printed in canonical form and parsed again gives back its task, its
   values and its free text if and only if it has the form.
   */
  lemma CanonicalReadsBack(row: Row)
    ensures ReadsBack(row) <==> RowForm(row)
  {
    if RowForm(row) { FormReadsBack(row); }
    if ReadsBack(row) {
      BackFromBody(row);
      BodyHasForm(row);
    }
  }

  // ----- the production format

  /** The four parts of a line in the format `task | fix:yes-or-no | esc:n | worktree:path`. */
  ghost predicate StrictParts(task: string, fix: string, esc: string, worktree: string) {
    && (forall part :: part in [task, fix, esc, worktree] ==> '|' !in part)
    && task != [] && (Strip(fix) == "fix:yes" || Strip(fix) == "fix:no")
    && (exists n :: IsDigits(n) && Strip(esc) == "esc:" + n)
    && (exists path :: path != [] && LStrip(worktree) == "worktree:" + path)
  }

  ghost predicate StrictLine(line: string, a: string, b: string, c: string, d: string) {
    line == a + "|" + b + "|" + c + "|" + d && StrictParts(a, b, c, d)
  }

  lemma BarFree(parts: seq<string>)
    requires parts != []
    ensures Separated(parts, "|") <==> forall part :: part in parts ==> '|' !in part
  {
    forall part: string ensures Find(part + "|", "|") == |part| <==> '|' !in part {
      BarEnds(part);
    }
    NotFound(parts[|parts| - 1], '|');
    if Separated(parts, "|") {
      forall part | part in parts ensures '|' !in part {
        var i :| 0 <= i < |parts| && parts[i] == part;
        assert i < |parts| - 1 ==> Find(parts[i] + "|", "|") == |parts[i]|;
      }
    }
  }

  lemma BarEnds(part: string)
    ensures Find(part + "|", "|") == |part| <==> '|' !in part
  {
    var s := part + "|";
    NotFound(s, '|');
    assert s[|part|..|part| + 1] == "|";
    FindFirst(s, "|", |part|);
    assert s[..|part|] == part;
    assert forall k :: 0 <= k < |part| ==> s[k] == part[k];
  }

  lemma FourParts(a: string, b: string, c: string, d: string)
    ensures Join([a, b, c, d], "|") == a + "|" + b + "|" + c + "|" + d
  {
    JoinCons(a, [b, c, d], "|");
    JoinCons(b, [c, d], "|");
    JoinCons(c, [d], "|");
    assert [a] + [b, c, d] == [a, b, c, d] && [b] + [c, d] == [b, c, d] && [c] + [d] == [c, d];
    assert Join([d], "|") == d;
  }

  lemma StrictSplits(line: string, a: string, b: string, c: string, d: string)
    requires line == a + "|" + b + "|" + c + "|" + d && forall part :: part in [a, b, c, d] ==> '|' !in part
    ensures Split(line, "|") == [a, b, c, d]
  {
    FourParts(a, b, c, d);
    BarFree([a, b, c, d]);
    SplitJoined([a, b, c, d], "|");
  }

  lemma StrictReads(line: string, a: string, b: string, c: string, d: string)
    requires StrictLine(line, a, b, c, d)
    ensures StrictTask(line) == Some(Strip(a))
  {
    StrictSplits(line, a, b, c, d);
    var n :| IsDigits(n) && Strip(c) == "esc:" + n;
    assert Strip(c)[4..] == n;
  }

  lemma PartsOfStrict(line: string) returns (a: string, b: string, c: string, d: string)
    requires StrictTask(line).Some?
    ensures StrictLine(line, a, b, c, d) && StrictTask(line) == Some(Strip(a))
  {
    var parts := Split(line, "|");
    a, b, c, d := parts[0], parts[1], parts[2], parts[3];
    SplitSeparates(line, "|");
    BarFree(parts);
    assert parts == [a, b, c, d];
    FourParts(a, b, c, d);
    assert Strip(c) == "esc:" + Strip(c)[4..];
    assert LStrip(d) == "worktree:" + LStrip(d)[9..];
  }

  /** A line has the production format if and only if it is four such parts between three bars. */
  lemma StrictIff(line: string, task: string)
    ensures StrictTask(line) == Some(task)
       <==> exists a, b, c, d :: StrictLine(line, a, b, c, d) && task == Strip(a)
  {
    if StrictTask(line) == Some(task) {
      var a, b, c, d := PartsOfStrict(line);
    }
    if exists a, b, c, d :: StrictLine(line, a, b, c, d) && task == Strip(a) {
      var a, b, c, d :| StrictLine(line, a, b, c, d) && task == Strip(a);
      StrictReads(line, a, b, c, d);
    }
  }

  // ----- the other lines

  function Other(item: string -> bool): string -> bool {
    (line: string) => !item(line)
  }

  /** Where a line that is no item is kept: in the header before any item, and with the number of items before it later. */
  ghost predicate KeptAt(q: LineQueue, before: seq<string>, line: string, item: string -> bool) {
    var items, others := |Filter(before, item)|, |Filter(before, Other(item))|;
    if items == 0 then others < |q.header| && q.header[others] == line
    else |q.header| <= others < |q.header| + |q.passthrough| && q.passthrough[others - |q.header|] == (items, line)
  }

  lemma {:induction false} BuildKeeps(lines: seq<string>, item: string -> bool, row: string -> Row)
    ensures var q := Build(lines, item, row);
      && |q.rows| == |Filter(lines, item)| && |q.header| + |q.passthrough| == |Filter(lines, Other(item))|
      && (q.rows == [] ==> q.passthrough == [])
      && forall j :: 0 <= j < |q.rows| ==> q.rows[j] == row(Filter(lines, item)[j])
  {
    if lines != [] { BuildKeeps(lines[..|lines| - 1], item, row); }
  }

  lemma KeptStays(q: LineQueue, before: seq<string>, line: string, item: string -> bool, raw: string, more: bool, row: Row)
    requires KeptAt(q, before, line, item) && (q.rows == [] ==> q.passthrough == [])
    ensures KeptAt(AddEntry(q, raw, more, row), before, line, item)
  {
  }

  lemma KeptNow(q: LineQueue, before: seq<string>, line: string, item: string -> bool, row: Row)
    requires |q.rows| == |Filter(before, item)| && |q.header| + |q.passthrough| == |Filter(before, Other(item))|
    requires q.rows == [] ==> q.passthrough == []
    ensures KeptAt(AddEntry(q, line, false, row), before, line, item)
  {
  }

  lemma PrefixAt(lines: seq<string>, i: nat)
    requires i < |lines|
    ensures var t := lines[..|lines| - 1];
      if i < |t| then t[..i] == lines[..i] && t[i] == lines[i] else i == |t| && t == lines[..i]
  {
  }

  lemma KeptByRest(t: seq<string>, x: string, item: string -> bool, row: string -> Row, i: nat)
    requires i < |t| && KeptAt(Build(t, item, row), t[..i], t[i], item)
    ensures KeptAt(AddEntry(Build(t, item, row), x, item(x), row(x)), t[..i], t[i], item)
  {
    BuildKeeps(t, item, row);
    KeptStays(Build(t, item, row), t[..i], t[i], item, x, item(x), row(x));
  }

  lemma KeptAsLast(t: seq<string>, x: string, item: string -> bool, row: string -> Row)
    requires !item(x)
    ensures KeptAt(AddEntry(Build(t, item, row), x, item(x), row(x)), t, x, item)
  {
    BuildKeeps(t, item, row);
    KeptNow(Build(t, item, row), t, x, item, row(x));
  }

  lemma {:induction false} KeptInOrder(lines: seq<string>, item: string -> bool, row: string -> Row, i: nat)
    requires i < |lines| && !item(lines[i])
    ensures KeptAt(Build(lines, item, row), lines[..i], lines[i], item)
  {
    var t, x := lines[..|lines| - 1], lines[|lines| - 1];
    PrefixAt(lines, i);
    if i < |t| {
      KeptInOrder(t, item, row, i);
      KeptByRest(t, x, item, row, i);
    } else {
      KeptAsLast(t, x, item, row);
    }
  }

  /** The rows are the item lines in order, and every other line is kept in the header or with its place among the rows. */
  lemma LinesAccountedFor(text: string, i: nat)
    requires i < |SplitLines(text)|
    ensures var lines, q := SplitLines(text), Parse(text);
      && |q.rows| == |Filter(lines, IsItem)| && |q.header| + |q.passthrough| == |Filter(lines, Other(IsItem))|
      && (forall j :: 0 <= j < |q.rows| ==> q.rows[j] == RowOf(Filter(lines, IsItem)[j]))
      && (!IsItem(lines[i]) ==> KeptAt(q, lines[..i], lines[i], IsItem))
  {
    var item, row := IsItem, RowOf;
    BuildKeeps(SplitLines(text), item, row);
    if !IsItem(SplitLines(text)[i]) { KeptInOrder(SplitLines(text), item, row, i); }
  }
}

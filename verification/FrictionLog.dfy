/**
 Durable append and replay of the friction event log, as text. The JSON encoding of events is a
 parameter of which only what JSON guarantees is assumed. The log's own line breaks are "\n", but
 replay splits lines the way `str.splitlines` does.
 */
module FrictionLog {
  import opened Basics
  import opened PyText
  import opened Seqs

  /** `json.dumps` of a stored event, and parsing plus validation of one line. */
  datatype Codec<!E> = Codec(encode: E -> string, decode: string -> Option<E>)

  /**
   What JSON guarantees: an encoded object is on one "\n"-line without control characters, opens and
   closes with a brace, decodes to itself or (when the stored event is invalid) to nothing, and no
   shorter beginning of it decodes at all.
   */
  ghost predicate JsonLike<E(!new)>(c: Codec<E>) {
    forall e :: EncodesLikeJson(c, e)
  }

  ghost predicate EncodesLikeJson<E(!new)>(c: Codec<E>, e: E) {
    var s := c.encode(e);
    && |s| >= 2 && s[0] == '{' && s[|s| - 1] == '}' && (forall i :: 0 <= i < |s| ==> s[i] >= ' ')
    && (c.decode(s) == Some(e) || c.decode(s) == None)
    && (forall k :: 0 < k < |s| ==> c.decode(s[..k]) == None)
  }

  /** The stored event is still a valid event. */
  predicate Storable<E(==)>(c: Codec<E>, e: E) {
    c.decode(c.encode(e)) == Some(e)
  }

  /** No U+0085, U+2028 or U+2029 reaches the log unescaped. */
  ghost predicate BreakFree<E>(c: Codec<E>, e: E) {
    NoBreak(c.encode(e))
  }

  // ----- the file

  /** The length of the part that ends with the last newline. */
  function CompleteLength(text: string): (n: nat)
    ensures n <= |text| && EndsLine(text[..n])
    ensures forall i :: n <= i < |text| ==> text[i] != '\n'
  {
    if text == [] || text[|text| - 1] == '\n' then |text| else CompleteLength(text[..|text| - 1])
  }

  /** `split_torn_tail`. */
  function SplitTornTail(text: string): (string, Option<string>) {
    if text == [] || text[|text| - 1] == '\n' then (text, None)
    else (text[..CompleteLength(text)], Some(text[CompleteLength(text)..]))
  }

  function Complete(text: string): string {
    text[..CompleteLength(text)]
  }

  /** The bytes one append writes. */
  function Payload<E>(c: Codec<E>, batch: seq<E>): string {
    if batch == [] then [] else c.encode(batch[0]) + "\n" + Payload(c, batch[1..])
  }

  /** The file after a completed append: the torn tail is cut off, then the batch is written. */
  function AppendText<E>(c: Codec<E>, text: string, batch: seq<E>): string {
    if batch == [] then text else Complete(text) + Payload(c, batch)
  }

  datatype LogReplay<E> = LogReplay(events: seq<E>, torn: Option<string>, lines: seq<string>)

  function RemoveNewline(line: string): string {
    if line != [] && line[|line| - 1] == '\n' then line[..|line| - 1] else line
  }

  /** What replay has gathered so far; `None` once a line has raised. */
  type Gathered<!E> = Option<(seq<E>, seq<string>)>

  /** One turn of the loop of `replay`: blank lines are skipped, an undecodable line raises. */
  function ReplayLine<E>(c: Codec<E>, so: Gathered<E>, original: string): Gathered<E> {
    var line := RemoveNewline(original);
    if so.None? then None
    else if Strip(line) == [] then so
    else
      match c.decode(line)
      case None => None
      case Some(e) => Some((so.value.0 + [e], so.value.1 + [original]))
  }

  function ReplayLines<E>(c: Codec<E>, lines: seq<string>): Gathered<E> {
    if lines == [] then Some(([], []))
    else ReplayLine(c, ReplayLines(c, lines[..|lines| - 1]), lines[|lines| - 1])
  }

  function Replay<E>(c: Codec<E>, text: string): Option<LogReplay<E>> {
    var (complete, torn) := SplitTornTail(text);
    match ReplayLines(c, SplitLines(complete))
    case None => None
    case Some((events, kept)) => Some(LogReplay(events, torn, kept))
  }

  /** Events of a log that replays. */
  ghost predicate Holds<E>(c: Codec<E>, text: string, events: seq<E>) {
    Replay(c, text).Some? && Replay(c, text).value.events == events
  }

  // ----- replay of concatenated text

  function Both<E>(a: Gathered<E>, b: Gathered<E>): Gathered<E> {
    if a.None? || b.None? then None else Some((a.value.0 + b.value.0, a.value.1 + b.value.1))
  }

  lemma ReplayLineAfter<E>(c: Codec<E>, a: Gathered<E>, b: Gathered<E>, line: string)
    ensures ReplayLine(c, Both(a, b), line) == Both(a, ReplayLine(c, b, line))
  {
    if a.Some? && b.Some? && c.decode(RemoveNewline(line)).Some? {
      var e := c.decode(RemoveNewline(line)).value;
      assert (a.value.0 + b.value.0) + [e] == a.value.0 + (b.value.0 + [e]);
      assert (a.value.1 + b.value.1) + [line] == a.value.1 + (b.value.1 + [line]);
    }
  }

  lemma BothNothing<E>(a: Gathered<E>)
    ensures Both(a, Some(([], []))) == a
  {
    if a.Some? {
      assert a.value.0 + [] == a.value.0 && a.value.1 + [] == a.value.1;
    }
  }

  lemma LinesSnoc<E>(c: Codec<E>, lines: seq<string>, x: string)
    ensures ReplayLines(c, lines + [x]) == ReplayLine(c, ReplayLines(c, lines), x)
  {
    assert (lines + [x])[..|lines|] == lines;
  }

  lemma {:induction false} ReplayLinesAppend<E>(c: Codec<E>, a: seq<string>, b: seq<string>)
    ensures ReplayLines(c, a + b) == Both(ReplayLines(c, a), ReplayLines(c, b))
  {
    if b == [] {
      assert a + b == a;
      BothNothing(ReplayLines(c, a));
    } else {
      var t, x := b[..|b| - 1], b[|b| - 1];
      ReplayLinesAppend(c, a, t);
      LinesSnoc(c, a + t, x);
      assert a + b == (a + t) + [x];
      ReplayLineAfter(c, ReplayLines(c, a), ReplayLines(c, t), x);
    }
  }

  lemma {:induction false} CompleteLengthOfLines(a: string, tail: string)
    requires EndsLine(a) && forall i :: 0 <= i < |tail| ==> tail[i] != '\n'
    ensures CompleteLength(a + tail) == |a|
  {
    var t := a + tail;
    if tail == [] {
      assert t == a;
    } else {
      assert t[|t| - 1] == tail[|tail| - 1] && t[..|t| - 1] == a + tail[..|tail| - 1];
      CompleteLengthOfLines(a, tail[..|tail| - 1]);
    }
  }

  lemma CompleteOfLines(a: string, tail: string)
    requires EndsLine(a) && forall i :: 0 <= i < |tail| ==> tail[i] != '\n'
    ensures Complete(a + tail) == a
    ensures SplitTornTail(a + tail) == (a, if tail == [] then None else Some(tail))
  {
    var t := a + tail;
    CompleteLengthOfLines(a, tail);
    assert t[..|a|] == a && t[|a|..] == tail;
    if tail == [] { assert t == a; } else { assert t[|t| - 1] == tail[|tail| - 1]; }
  }

  lemma CompleteReplays<E>(c: Codec<E>, text: string)
    ensures Replay(c, text).Some? <==> ReplayLines(c, SplitLines(Complete(text))).Some?
    ensures Replay(c, text).Some? ==> Replay(c, text).value.events == ReplayLines(c, SplitLines(Complete(text))).value.0
  {
    assert text[..CompleteLength(text)] == Complete(text);
    if text == [] || text[|text| - 1] == '\n' { assert Complete(text) == text; }
  }

  /** A valid stored event without stray breaks replays as itself; an invalid one raises. */
  lemma CleanLineReplays<E(!new)>(c: Codec<E>, e: E)
    requires JsonLike(c) && BreakFree(c, e)
    ensures var line := c.encode(e) + "\n";
      ReplayLines(c, SplitLines(line)) == if Storable(c, e) then Some(([e], [line])) else None
  {
    assert EncodesLikeJson(c, e);
    var s := c.encode(e);
    NotBlank(s);
    OneLine(s);
    assert RemoveNewline(s + "\n") == s;
    ReplayOne(c, s + "\n");
  }

  /** A stray break cuts the line short, and the short piece does not decode. */
  lemma BrokenLineRaises<E(!new)>(c: Codec<E>, e: E)
    requires JsonLike(c) && !BreakFree(c, e)
    ensures ReplayLines(c, SplitLines(c.encode(e) + "\n")) == None
  {
    assert EncodesLikeJson(c, e);
    var s := c.encode(e);
    var t := s + "\n";
    BrokenLine(s);
    var n := LineEnd(t);
    assert t[..n] == s[..n] && s[n - 1] >= ' ';
    assert RemoveNewline(t[..n]) == s[..n];
    NotBlank(s[..n]);
    ReplayOne(c, t[..n]);
    assert SplitLines(t) == [t[..n]] + SplitLines(t[n..]);
    ReplayLinesAppend(c, [t[..n]], SplitLines(t[n..]));
  }

  lemma NotBlank(s: string)
    requires s != [] && s[0] == '{'
    ensures Strip(s) != []
  {
    assert LStrip(s) == s;
    RStripKeepsFirst(s);
  }

  lemma {:induction false} RStripKeepsFirst(s: string)
    requires s != [] && !IsSpace(s[0])
    ensures RStrip(s) != []
  {
    if |s| > 1 && IsSpace(s[|s| - 1]) { RStripKeepsFirst(s[..|s| - 1]); }
  }

  lemma ReplayOne<E>(c: Codec<E>, line: string)
    requires Strip(RemoveNewline(line)) != []
    ensures ReplayLines(c, [line]) ==
      match c.decode(RemoveNewline(line)) case None => None case Some(e) => Some(([e], [line]))
  {
    assert [] + [line] == [line];
    LinesSnoc(c, [], line);
    var start: (seq<E>, seq<string>) := ([], []);
    assert ReplayLines(c, []) == Some(start);
    match c.decode(RemoveNewline(line)) {
      case None =>
      case Some(e) => assert start.0 + [e] == [e];
    }
  }

  /** A break inside the encoding ends the first line early. */
  lemma {:induction false} BrokenLine(s: string)
    requires !NoBreak(s) && s != [] && !IsBreak(s[|s| - 1]) && forall i :: 0 <= i < |s| ==> s[i] >= ' '
    ensures LineEnd(s + "\n") < |s|
  {
    var t := s + "\n";
    if !IsBreak(s[0]) {
      assert |s| >= 2;
      assert t[1..] == s[1..] + "\n";
      var ch :| ch in s && IsBreak(ch);
      assert ch in s[1..];
      BrokenLine(s[1..]);
    } else {
      assert |s| >= 2;
    }
  }

  /** Every stored event is valid and carries no stray break. */
  ghost predicate Clean<E>(c: Codec<E>, batch: seq<E>) {
    forall e | e in batch :: Storable(c, e) && BreakFree(c, e)
  }

  lemma CleanFirst<E>(c: Codec<E>, batch: seq<E>)
    requires batch != []
    ensures Clean(c, batch) <==> Storable(c, batch[0]) && BreakFree(c, batch[0]) && Clean(c, batch[1..])
  {
    assert forall e | e in batch :: e == batch[0] || e in batch[1..];
  }

  lemma ReplayInParts<E>(c: Codec<E>, a: string, b: string)
    requires EndsLine(a)
    ensures ReplayLines(c, SplitLines(a + b)) == Both(ReplayLines(c, SplitLines(a)), ReplayLines(c, SplitLines(b)))
  {
    SplitLinesAppend(a, b);
    ReplayLinesAppend(c, SplitLines(a), SplitLines(b));
  }

  lemma {:induction false} PayloadReplays<E(!new)>(c: Codec<E>, batch: seq<E>)
    requires JsonLike(c)
    ensures EndsLine(Payload(c, batch))
    ensures var r := ReplayLines(c, SplitLines(Payload(c, batch)));
      if Clean(c, batch) then r.Some? && r.value.0 == batch else r.None?
  {
    if batch != [] {
      var line, rest := c.encode(batch[0]) + "\n", Payload(c, batch[1..]);
      PayloadReplays(c, batch[1..]);
      CleanFirst(c, batch);
      if BreakFree(c, batch[0]) { CleanLineReplays(c, batch[0]); } else { BrokenLineRaises(c, batch[0]); }
      ReplayInParts(c, line, rest);
      assert batch == [batch[0]] + batch[1..];
    }
  }

  lemma LinesThenPayload<E(!new)>(c: Codec<E>, text: string, events: seq<E>, batch: seq<E>)
    requires JsonLike(c) && Holds(c, text, events)
    ensures var r := ReplayLines(c, SplitLines(Complete(text) + Payload(c, batch)));
      if Clean(c, batch) then r.Some? && r.value.0 == events + batch else r.None?
  {
    var a, p := Complete(text), Payload(c, batch);
    CompleteReplays(c, text);
    PayloadReplays(c, batch);
    ReplayInParts(c, a, p);
  }

  // ----- what replay returns

  /** The line is not blank, so it must decode. */
  function Filled(line: string): bool {
    Strip(RemoveNewline(line)) != []
  }

  lemma {:induction false} ReplayLinesIff<E>(c: Codec<E>, lines: seq<string>)
    ensures var r := ReplayLines(c, lines);
      && (r.Some? <==> forall line :: line in lines && Filled(line) ==> c.decode(RemoveNewline(line)).Some?)
      && (r.Some? ==> r.value.1 == Filter(lines, Filled) && |r.value.0| == |r.value.1|
                      && forall i :: 0 <= i < |r.value.0| ==> c.decode(RemoveNewline(r.value.1[i])) == Some(r.value.0[i]))
  {
    if lines != [] {
      ReplayLinesIff(c, lines[..|lines| - 1]);
      SplitLast(lines);
    }
  }

  /**
   Of a text that is complete lines and a rest without newline, replay raises exactly if some line that is not blank
   does not decode. Otherwise it returns, in order, the lines that are not blank with their events, and the rest as torn.
   */
  lemma ReplayIff<E>(c: Codec<E>, complete: string, rest: string)
    requires EndsLine(complete) && '\n' !in rest
    ensures var r := Replay(c, complete + rest);
      && (r.Some? <==> forall line :: line in SplitLines(complete) && Filled(line) ==> c.decode(RemoveNewline(line)).Some?)
      && (r.Some? ==>
            && r.value.torn == (if rest == [] then None else Some(rest))
            && r.value.lines == Filter(SplitLines(complete), Filled) && |r.value.events| == |r.value.lines|
            && forall i :: 0 <= i < |r.value.events| ==> c.decode(RemoveNewline(r.value.lines[i])) == Some(r.value.events[i]))
  {
    CompleteOfLines(complete, rest);
    ReplayLinesIff(c, SplitLines(complete));
  }

  // ----- append, then replay

  /**
   After an append to a log that replays (whatever torn tail it has), replay returns the old events
   followed by the batch, exactly when every stored event is valid and free of stray line breaks.
   */
  lemma AppendThenReplay<E(!new)>(c: Codec<E>, text: string, events: seq<E>, batch: seq<E>)
    requires JsonLike(c) && Holds(c, text, events)
    ensures Holds(c, AppendText(c, text, batch), events + batch)
       <==> Clean(c, batch)
    ensures !Holds(c, AppendText(c, text, batch), events + batch) ==> Replay(c, AppendText(c, text, batch)) == None
  {
    if batch == [] {
      assert events + batch == events;
    } else {
      var a, p := Complete(text), Payload(c, batch);
      PayloadReplays(c, batch);
      assert EndsLine(a + p);
      CompleteOfLines(a + p, []);
      assert a + p + [] == a + p;
      LinesThenPayload(c, text, events, batch);
      CompleteReplays(c, a + p);
    }
  }

  /** A codec for two events, one of them written with U+2028 unescaped. */
  const SEPARATOR_CODEC := Codec(
    (e: bool) => if e then "{\U{2028}}" else "{}",
    (s: string) => if s == "{\U{2028}}" then Some(true) else if s == "{}" then Some(false) else None)

  lemma SeparatorIsJsonLike()
    ensures JsonLike(SEPARATOR_CODEC) && Storable(SEPARATOR_CODEC, true)
  {
    forall e ensures EncodesLikeJson(SEPARATOR_CODEC, e) {
    }
  }

  /**
   One event whose encoding keeps a line separator unescaped stops every replay from then on, whatever the log,
   the rest of the batch and the codec. Such an event can be perfectly storable.
   */
  lemma LineSeparatorBreaksReplay<E(!new)>(c: Codec<E>, text: string, events: seq<E>, batch: seq<E>, e: E, i: nat)
    requires JsonLike(c) && Holds(c, text, events) && e in batch && i < |c.encode(e)| && IsBreak(c.encode(e)[i])
    ensures Replay(c, AppendText(c, text, batch)) == None
    ensures JsonLike(SEPARATOR_CODEC) && Storable(SEPARATOR_CODEC, true) && IsBreak(SEPARATOR_CODEC.encode(true)[1])
  {
    SeparatorIsJsonLike();
    assert c.encode(e)[i] in c.encode(e);
    AppendThenReplay(c, text, events, batch);
  }

  // ----- crashes

  /** How many whole lines the first `k` characters of the payload hold. */
  function Survivors<E>(c: Codec<E>, batch: seq<E>, k: nat): (n: nat)
    ensures n <= |batch|
  {
    if batch == [] || k <= |c.encode(batch[0])| then 0
    else 1 + Survivors(c, batch[1..], k - |c.encode(batch[0])| - 1)
  }

  /** A cut payload is some whole lines and the beginning of one more. */
  lemma {:induction false} CutPayload<E(!new)>(c: Codec<E>, batch: seq<E>, k: nat)
    requires JsonLike(c) && k <= |Payload(c, batch)|
    ensures var p, n := Payload(c, batch)[..k], Survivors(c, batch, k);
      var whole := Payload(c, batch[..n]);
      whole <= p && forall i :: |whole| <= i < |p| ==> p[i] != '\n'
    decreases |batch|
  {
    if batch != [] {
      assert EncodesLikeJson(c, batch[0]);
      var line, rest := c.encode(batch[0]) + "\n", Payload(c, batch[1..]);
      var p := Payload(c, batch)[..k];
      if k <= |c.encode(batch[0])| {
        assert batch[..0] == [];
        assert forall i :: 0 <= i < k ==> p[i] == c.encode(batch[0])[i];
      } else {
        var n := Survivors(c, batch[1..], k - |line|);
        CutPayload(c, batch[1..], k - |line|);
        assert p == line + rest[..k - |line|];
        assert batch[..n + 1] == [batch[0]] + batch[1..][..n];
        assert Payload(c, batch[..n + 1]) == line + Payload(c, batch[1..][..n]);
      }
    } else {
      assert batch[..0] == [];
    }
  }

  /** The file when a crash stops an append after `k` characters of its payload. */
  function CrashText<E>(c: Codec<E>, text: string, batch: seq<E>, k: nat): string
    requires k <= |Payload(c, batch)|
  {
    Complete(text) + Payload(c, batch)[..k]
  }

  lemma CrashLeaves<E(!new)>(c: Codec<E>, text: string, batch: seq<E>, k: nat)
    requires JsonLike(c) && k <= |Payload(c, batch)|
    ensures Complete(CrashText(c, text, batch, k)) == Complete(text) + Payload(c, batch[..Survivors(c, batch, k)])
  {
    CutPayload(c, batch, k);
    var a, p := Complete(text), Payload(c, batch)[..k];
    var whole := Payload(c, batch[..Survivors(c, batch, k)]);
    PayloadReplays(c, batch[..Survivors(c, batch, k)]);
    CompleteOfCut(a, whole, p);
  }

  lemma CompleteOfCut(a: string, whole: string, p: string)
    requires EndsLine(a) && EndsLine(whole) && whole <= p
    requires forall i :: |whole| <= i < |p| ==> p[i] != '\n'
    ensures Complete(a + p) == a + whole
  {
    var tail := p[|whole|..];
    assert p == whole + tail;
    assert a + p == (a + whole) + tail;
    CompleteOfLines(a + whole, tail);
  }

  /** A crash anywhere in the payload leaves the old events and a beginning of the batch. */
  lemma CrashThenReplay<E(!new)>(c: Codec<E>, text: string, events: seq<E>, batch: seq<E>, k: nat)
    requires JsonLike(c) && Holds(c, text, events) && Clean(c, batch) && k <= |Payload(c, batch)|
    ensures Holds(c, CrashText(c, text, batch, k), events + batch[..Survivors(c, batch, k)])
  {
    var crashed, kept := CrashText(c, text, batch, k), batch[..Survivors(c, batch, k)];
    CrashLeaves(c, text, batch, k);
    CompleteReplays(c, crashed);
    LinesThenPayload(c, text, events, kept);
  }

  /** The next append discards the torn fragment and nothing else. */
  lemma AppendAfterCrash<E(!new)>(c: Codec<E>, text: string, events: seq<E>, batch: seq<E>, k: nat, next: seq<E>)
    requires JsonLike(c) && Holds(c, text, events) && Clean(c, batch) && Clean(c, next) && next != []
    requires k <= |Payload(c, batch)|
    ensures var kept := batch[..Survivors(c, batch, k)];
      var after := AppendText(c, CrashText(c, text, batch, k), next);
      && after == Complete(text) + Payload(c, kept) + Payload(c, next)
      && Holds(c, after, events + kept + next)
  {
    CrashLeaves(c, text, batch, k);
    CrashThenReplay(c, text, events, batch, k);
    AppendThenReplay(c, CrashText(c, text, batch, k), events + batch[..Survivors(c, batch, k)], next);
  }

  // ----- the code

  /** The log file. Methods run under the canonical lock, so each sees the file alone. */
  class LogFile<E(==)> {
    const codec: Codec<E>
    var text: string

    constructor (codec: Codec<E>)
      ensures this.codec == codec && text == ""
    {
      this.codec := codec;
      text := "";
    }

    /** Validates and redacts the whole batch before it touches the file. */
    method AppendMany(batch: seq<E>, valid: E -> bool, redact: E -> E) returns (r: Result<(), ()>)
      modifies this`text
      ensures r.Ok? <==> forall e :: e in batch ==> valid(e)
      ensures r.Ok? ==> text == AppendText(codec, old(text), seq(|batch|, i requires 0 <= i < |batch| => redact(batch[i])))
      ensures r.Err? ==> text == old(text)
    {
      var stored: seq<E> := [];
      for i := 0 to |batch|
        invariant forall j :: 0 <= j < i ==> valid(batch[j])
        invariant stored == seq(i, j requires 0 <= j < i => redact(batch[j]))
      {
        if !valid(batch[i]) {
          return Err(());
        }
        stored := stored + [redact(batch[i])];
      }
      if stored == [] {
        return Ok(());
      }
      if text != [] && text[|text| - 1] != '\n' {
        text := text[..CompleteLength(text)];
      }
      assert text == Complete(old(text));
      text := text + Payload(codec, stored);
      assert stored == seq(|batch|, i requires 0 <= i < |batch| => redact(batch[i]));
      r := Ok(());
    }

    method ReplayLog() returns (r: Option<LogReplay<E>>)
      ensures r == Replay(codec, text)
    {
      var (complete, torn) := SplitTornTail(text);
      var lines := SplitLines(complete);
      var events: seq<E> := [];
      var kept: seq<string> := [];
      for i := 0 to |lines|
        invariant ReplayLines(codec, lines[..i]) == Some((events, kept))
      {
        assert lines[..i + 1] == lines[..i] + [lines[i]];
        LinesSnoc(codec, lines[..i], lines[i]);
        var line := RemoveNewline(lines[i]);
        if Strip(line) != [] {
          match codec.decode(line) {
            case None =>
              RaisesForGood(codec, lines, i + 1);
              return None;
            case Some(e) =>
              events := events + [e];
              kept := kept + [lines[i]];
          }
        }
      }
      assert lines[..|lines|] == lines;
      r := Some(LogReplay(events, torn, kept));
    }
  }

  /** Once a line has raised there is no replay. */
  lemma RaisesForGood<E>(c: Codec<E>, lines: seq<string>, n: nat)
    requires n <= |lines| && ReplayLines(c, lines[..n]) == None
    ensures ReplayLines(c, lines) == None
  {
    assert lines == lines[..n] + lines[n..];
    ReplayLinesAppend(c, lines[..n], lines[n..]);
  }
}

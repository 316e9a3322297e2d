/**
 The shared role inbox: one append-only message stream per role, one read cursor per holder,
 and a table of delivery events. `State` and `Apply` say what each transaction does to the
 three tables; class `Inbox` performs them in place; the lemmas speak of every run of operations.
 */
module RoleInbox {
  import opened Basics
  import opened Seqs

  datatype Message = Message(id: string, seqNo: nat, recipient: string, text: string)

  datatype Event = Delivered | Dropped | Legacy | Acked | Other(name: string)

  datatype Delivery = Delivery(messageId: string, reader: string, event: Event)

  datatype Key = Key(role: string, holder: string)

  datatype State = State(messages: seq<Message>, cursors: map<Key, nat>, deliveries: set<Delivery>)

  datatype Error = NotFound | Invalid | IntegrityError

  datatype Outcome = Done | Removed(found: bool) | Claimed(messages: seq<Message>) | Raised(error: Error)

  datatype Op =
    | Append(message: Message)
    | Claim(role: string, holder: string)
    | Advance(role: string, holder: string, to: int)
    | Ack(role: string, holder: string, messageId: string)
    | AddHolders(role: string, holders: seq<string>, inheritFrom: Option<string>, live: Option<set<string>>)
    | RemoveHolder(role: string, holder: string)
    | External(delivery: Delivery)

  // ----- queries

  predicate Hidden(deliveries: set<Delivery>, id: string, holder: string, role: string) {
    exists d :: d in deliveries && d.messageId == id && (d.reader == holder || d.reader == role) && !d.event.Other?
  }

  predicate IsUnread(s: State, role: string, holder: string, cursor: nat, m: Message) {
    m.recipient == role && m.seqNo > cursor && !Hidden(s.deliveries, m.id, holder, role)
  }

  function UnreadTest(s: State, role: string, holder: string, cursor: nat): Message -> bool {
    m => IsUnread(s, role, holder, cursor, m)
  }

  function StreamTest(role: string, position: nat): Message -> bool {
    (m: Message) => m.recipient == role && m.seqNo > position
  }

  function LaterThan(position: nat): Message -> bool {
    (m: Message) => m.seqNo > position
  }

  function NotIn(rows: seq<Message>): Message -> bool {
    m => m !in rows
  }

  /** The rows of the unread query, in stream order. */
  function Unread(s: State, role: string, holder: string): seq<Message>
    requires Key(role, holder) in s.cursors
  {
    Filter(s.messages, UnreadTest(s, role, holder, s.cursors[Key(role, holder)]))
  }

  /** The messages of a role stream above a position. */
  function Above(messages: seq<Message>, role: string, position: nat): seq<Message> {
    Filter(messages, StreamTest(role, position))
  }

  /** `COALESCE(MAX(seq),0)` over a role stream. */
  function Head(messages: seq<Message>, role: string): nat {
    if messages == [] then 0
    else
      var rest := Head(messages[..|messages| - 1], role);
      var m := messages[|messages| - 1];
      if m.recipient == role && m.seqNo > rest then m.seqNo else rest
  }

  function Holders(cursors: map<Key, nat>, role: string): set<string> {
    set k | k in cursors && k.role == role :: k.holder
  }

  function Positions(cursors: map<Key, nat>, role: string): set<nat> {
    set k | k in cursors && k.role == role :: cursors[k]
  }

  ghost predicate IsLowest(c: nat, ns: set<nat>) {
    c in ns && forall n :: n in ns ==> c <= n
  }

  lemma {:induction false} LowestExists(ns: set<nat>)
    requires ns != {}
    ensures exists c :: IsLowest(c, ns)
  {
    var p :| p in ns;
    if ns == {p} {
      assert IsLowest(p, ns);
    } else {
      LowestExists(ns - {p});
      var q :| IsLowest(q, ns - {p});
      assert forall n :: n in ns ==> n == p || n in ns - {p};
      assert IsLowest(if p <= q then p else q, ns);
    }
  }

  /** `min(existing.values())`. */
  function Lowest(ns: set<nat>): (c: nat)
    requires ns != {}
    ensures IsLowest(c, ns)
  {
    LowestExists(ns);
    var c: nat :| c in ns && forall n :: n in ns ==> c <= n;
    c
  }

  // ----- transactions

  /** What `_record_read_events` leaves behind for a batch of rows. */
  function ReadEvents(rows: seq<Message>, holder: string): set<Delivery> {
    (set m | m in rows :: Delivery(m.id, holder, Delivered)) + (set m | m in rows :: Delivery(m.id, holder, Acked))
  }

  lemma ReadEventsNext(rows: seq<Message>, i: nat, holder: string)
    requires i < |rows|
    ensures ReadEvents(rows[..i + 1], holder)
         == ReadEvents(rows[..i], holder) + {Delivery(rows[i].id, holder, Delivered), Delivery(rows[i].id, holder, Acked)}
  {
    assert rows[..i + 1] == rows[..i] + [rows[i]];
  }

  function Max(a: nat, b: nat): nat { if a >= b then a else b }

  function ApplyClaim(s: State, role: string, holder: string): (State, Outcome) {
    var k := Key(role, holder);
    if k !in s.cursors then (s, Raised(NotFound))
    else
      var rows := Unread(s, role, holder);
      if rows == [] then (s, Claimed([]))
      else (s.(cursors := s.cursors[k := Max(s.cursors[k], rows[|rows| - 1].seqNo)],
               deliveries := s.deliveries + ReadEvents(rows, holder)),
            Claimed(rows))
  }

  function ApplyAdvance(s: State, role: string, holder: string, to: int): (State, Outcome) {
    var k := Key(role, holder);
    if to < 0 || to > Head(s.messages, role) then (s, Raised(Invalid))
    else if k !in s.cursors then (s, Raised(NotFound))
    else (s.(cursors := s.cursors[k := Max(s.cursors[k], to)]), Done)
  }

  predicate InStream(messages: seq<Message>, role: string, id: string) {
    exists m :: m in messages && m.id == id && m.recipient == role
  }

  /** `SELECT ... WHERE id=? AND recipient=?`: ids are unique, so the first match is the match. */
  function Lookup(messages: seq<Message>, role: string, id: string): (m: Message)
    requires InStream(messages, role, id)
    ensures m in messages && m.id == id && m.recipient == role
  {
    if messages[0].id == id && messages[0].recipient == role then messages[0]
    else
      assert InStream(messages[1..], role, id);
      Lookup(messages[1..], role, id)
  }

  function ApplyAck(s: State, role: string, holder: string, id: string): (State, Outcome) {
    var k := Key(role, holder);
    if !InStream(s.messages, role, id) || k !in s.cursors then (s, Raised(NotFound))
    else
      var m := Lookup(s.messages, role, id);
      (s.(cursors := s.cursors[k := Max(s.cursors[k], m.seqNo)],
          deliveries := s.deliveries + ReadEvents([m], holder)),
       Done)
  }

  /** Where new holders start, or `None` when the named predecessor is not registered. */
  function StartCursor(s: State, role: string, inheritFrom: Option<string>, live: Option<set<string>>): Option<nat> {
    var existing := Holders(s.cursors, role);
    match inheritFrom
    case Some(p) => if Key(role, p) in s.cursors then Some(s.cursors[Key(role, p)]) else None
    case None =>
      var alive := if live.Some? then live.value else existing;
      if existing * alive != {} then Some(Head(s.messages, role))
      else if Positions(s.cursors, role) != {} then Some(Lowest(Positions(s.cursors, role)))
      else Some(0)
  }

  predicate Repeats(names: seq<string>) {
    exists i, j :: 0 <= i < j < |names| && names[i] == names[j]
  }

  function Newcomer(cursors: map<Key, nat>, role: string): string -> bool {
    h => Key(role, h) !in cursors
  }

  function RowsFor(role: string, names: seq<string>, cursor: nat): map<Key, nat> {
    map h | h in names :: Key(role, h) := cursor
  }

  /** Registers the new names at the start cursor, or raises and leaves everything as it was. */
  function Register(s: State, role: string, holders: seq<string>, start: Option<nat>): (State, Outcome) {
    var newcomers := Filter(holders, Newcomer(s.cursors, role));
    if holders == [] || "" in holders then (s, Raised(Invalid))
    else if newcomers == [] then (s, Done)
    else
      match start
      case None => (s, Raised(NotFound))
      case Some(c) =>
        if Repeats(newcomers) then (s, Raised(IntegrityError))
        else (s.(cursors := s.cursors + RowsFor(role, newcomers, c)), Done)
  }

  function ApplyAddHolders(s: State, role: string, holders: seq<string>,
                           inheritFrom: Option<string>, live: Option<set<string>>): (State, Outcome)
  {
    Register(s, role, holders, StartCursor(s, role, inheritFrom, live))
  }

  function Apply(s: State, op: Op): (State, Outcome) {
    match op
    case Append(m) =>
      if (exists x :: x in s.messages && (x.id == m.id || x.seqNo >= m.seqNo)) || m.seqNo == 0
      then (s, Raised(IntegrityError))
      else (s.(messages := s.messages + [m]), Done)
    case Claim(role, holder) => ApplyClaim(s, role, holder)
    case Advance(role, holder, to) => ApplyAdvance(s, role, holder, to)
    case Ack(role, holder, id) => ApplyAck(s, role, holder, id)
    case AddHolders(role, holders, inheritFrom, live) => ApplyAddHolders(s, role, holders, inheritFrom, live)
    case RemoveHolder(role, holder) =>
      (s.(cursors := s.cursors - {Key(role, holder)}), Removed(Key(role, holder) in s.cursors))
    case External(d) => (s.(deliveries := s.deliveries + {d}), Done)
  }

  function Run(s: State, ops: seq<Op>): State
    decreases |ops|
  {
    if ops == [] then s else Run(Apply(s, ops[0]).0, ops[1..])
  }

  function Returned(out: Outcome): seq<Message> {
    if out.Claimed? then out.messages else []
  }

  /** Everything `claim_unread` returns to `holder` in a run, from any role stream. */
  function ClaimedBy(s: State, ops: seq<Op>, holder: string): seq<Message>
    decreases |ops|
  {
    if ops == [] then []
    else
      var (next, out) := Apply(s, ops[0]);
      (if ops[0].Claim? && ops[0].holder == holder then Returned(out) else [])
      + ClaimedBy(next, ops[1..], holder)
  }

  /** The same, from one role stream. */
  function ClaimedFrom(s: State, ops: seq<Op>, role: string, holder: string): seq<Message>
    decreases |ops|
  {
    if ops == [] then []
    else
      var (next, out) := Apply(s, ops[0]);
      (if ops[0] == Claim(role, holder) then Returned(out) else [])
      + ClaimedFrom(next, ops[1..], role, holder)
  }

  // ----- what every run keeps

  ghost predicate Valid(s: State) {
    && (forall i, j :: 0 <= i < j < |s.messages| ==>
          s.messages[i].seqNo < s.messages[j].seqNo && s.messages[i].id != s.messages[j].id)
    && (forall m :: m in s.messages ==> m.seqNo > 0)
    && (forall k :: k in s.cursors ==> s.cursors[k] <= Head(s.messages, k.role))
  }

  lemma {:induction false} HeadBounds(messages: seq<Message>, role: string)
    ensures forall m :: m in messages && m.recipient == role ==> m.seqNo <= Head(messages, role)
    ensures Head(messages, role) == 0
         || exists m :: m in messages && m.recipient == role && m.seqNo == Head(messages, role)
  {
    if messages != [] {
      HeadBounds(messages[..|messages| - 1], role);
      assert messages == messages[..|messages| - 1] + [messages[|messages| - 1]];
    }
  }

  predicate Precedes(a: Message, b: Message) {
    a.seqNo < b.seqNo && a.id != b.id
  }

  lemma UnreadOrdered(s: State, role: string, holder: string)
    requires Valid(s) && Key(role, holder) in s.cursors
    ensures var rows := Unread(s, role, holder);
      forall i, j :: 0 <= i < j < |rows| ==> Precedes(rows[i], rows[j])
  {
    FilterKeepsPairs(s.messages, UnreadTest(s, role, holder, s.cursors[Key(role, holder)]), Precedes);
  }

  lemma ClaimedRows(s: State, role: string, holder: string)
    requires Valid(s) && Key(role, holder) in s.cursors
    ensures var rows := Unread(s, role, holder);
      && (forall i, j :: 0 <= i < j < |rows| ==> rows[i].seqNo < rows[j].seqNo && rows[i].id != rows[j].id)
      && (forall m :: m in rows ==> m.seqNo <= rows[|rows| - 1].seqNo && m.seqNo <= Head(s.messages, role))
  {
    UnreadOrdered(s, role, holder);
    HeadBounds(s.messages, role);
    var rows := Unread(s, role, holder);
    forall m | m in rows ensures m.seqNo <= rows[|rows| - 1].seqNo {
      var i :| 0 <= i < |rows| && rows[i] == m;
      assert i < |rows| - 1 ==> Precedes(rows[i], rows[|rows| - 1]);
    }
  }

  lemma HeadGrows(messages: seq<Message>, m: Message, role: string)
    ensures Head(messages, role) <= Head(messages + [m], role)
  {
    assert (messages + [m])[..|messages|] == messages;
  }

  lemma OrderGrows(messages: seq<Message>, m: Message)
    requires forall i, j :: 0 <= i < j < |messages| ==> messages[i].seqNo < messages[j].seqNo && messages[i].id != messages[j].id
    requires forall x :: x in messages ==> x.id != m.id && x.seqNo < m.seqNo
    ensures var all := messages + [m];
      forall i, j :: 0 <= i < j < |all| ==> all[i].seqNo < all[j].seqNo && all[i].id != all[j].id
  {
  }

  lemma AppendKeepsValid(s: State, m: Message)
    requires Valid(s)
    ensures Valid(Apply(s, Append(m)).0)
  {
    var t := Apply(s, Append(m)).0;
    if t != s {
      OrderGrows(s.messages, m);
      forall k | k in t.cursors ensures t.cursors[k] <= Head(t.messages, k.role) {
        HeadGrows(s.messages, m, k.role);
      }
    }
  }

  lemma ClaimKeepsValid(s: State, role: string, holder: string)
    requires Valid(s)
    ensures Valid(ApplyClaim(s, role, holder).0)
  {
    if Key(role, holder) in s.cursors { ClaimedRows(s, role, holder); }
  }

  lemma StartWithinHead(s: State, role: string, inheritFrom: Option<string>, live: Option<set<string>>)
    requires Valid(s)
    ensures var c := StartCursor(s, role, inheritFrom, live); c.Some? ==> c.value <= Head(s.messages, role)
  {
    var ps := Positions(s.cursors, role);
    if ps != {} {
      var c := Lowest(ps);
      assert exists k :: k in s.cursors && k.role == role && s.cursors[k] == c;
    }
  }

  lemma AddKeepsValid(s: State, role: string, holders: seq<string>, inheritFrom: Option<string>, live: Option<set<string>>)
    requires Valid(s)
    ensures Valid(ApplyAddHolders(s, role, holders, inheritFrom, live).0)
    ensures forall k :: k in s.cursors ==>
      k in ApplyAddHolders(s, role, holders, inheritFrom, live).0.cursors
      && ApplyAddHolders(s, role, holders, inheritFrom, live).0.cursors[k] == s.cursors[k]
  {
    StartWithinHead(s, role, inheritFrom, live);
  }

  lemma AckKeepsValid(s: State, role: string, holder: string, id: string)
    requires Valid(s)
    ensures Valid(ApplyAck(s, role, holder, id).0)
  {
    HeadBounds(s.messages, role);
  }

  /** One step keeps the tables consistent. */
  lemma StepKeepsValid(s: State, op: Op)
    requires Valid(s)
    ensures Valid(Apply(s, op).0)
  {
    match op
    case Append(m) => AppendKeepsValid(s, m);
    case Claim(role, holder) => ClaimKeepsValid(s, role, holder);
    case Ack(role, holder, id) => AckKeepsValid(s, role, holder, id);
    case AddHolders(role, holders, inheritFrom, live) => AddKeepsValid(s, role, holders, inheritFrom, live);
    case Advance(_, _, _) =>
    case RemoveHolder(_, _) =>
    case External(_) =>
  }

  /** Delivery events are never forgotten, and a cursor still registered never moves back. */
  lemma StepMonotone(s: State, op: Op)
    requires Valid(s)
    ensures s.deliveries <= Apply(s, op).0.deliveries
    ensures forall k :: k in s.cursors && k in Apply(s, op).0.cursors ==> s.cursors[k] <= Apply(s, op).0.cursors[k]
    ensures forall k :: k in s.cursors && op != RemoveHolder(k.role, k.holder) ==> k in Apply(s, op).0.cursors
  {
    if op.AddHolders? { AddKeepsValid(s, op.role, op.holders, op.inheritFrom, op.live); }
  }

  /** Over every run cursors stay at or below the stream head, and never move back unless removed. */
  lemma {:induction false} CursorsMonotone(s: State, ops: seq<Op>, role: string, holder: string)
    requires Valid(s) && Key(role, holder) in s.cursors
    requires RemoveHolder(role, holder) !in ops
    ensures Valid(Run(s, ops)) && Key(role, holder) in Run(s, ops).cursors
    ensures s.cursors[Key(role, holder)] <= Run(s, ops).cursors[Key(role, holder)] <= Head(Run(s, ops).messages, role)
    decreases |ops|
  {
    if ops != [] {
      assert ops[0] in ops;
      StepKeepsValid(s, ops[0]);
      StepMonotone(s, ops[0]);
      CursorsMonotone(Apply(s, ops[0]).0, ops[1..], role, holder);
    }
  }

  // ----- at most once

  lemma {:induction false} ClaimsWereUnseen(s: State, ops: seq<Op>, holder: string)
    requires Valid(s)
    ensures forall m :: m in ClaimedBy(s, ops, holder) ==> Delivery(m.id, holder, Delivered) !in s.deliveries
    decreases |ops|
  {
    if ops != [] {
      StepKeepsValid(s, ops[0]);
      StepMonotone(s, ops[0]);
      ClaimsWereUnseen(Apply(s, ops[0]).0, ops[1..], holder);
    }
  }

  ghost predicate NoIdTwice(rows: seq<Message>) {
    forall i, j :: 0 <= i < j < |rows| ==> rows[i].id != rows[j].id
  }

  lemma NoIdTwiceAppend(a: seq<Message>, b: seq<Message>)
    requires NoIdTwice(a) && NoIdTwice(b) && forall m, n :: m in a && n in b ==> m.id != n.id
    ensures NoIdTwice(a + b)
  {
  }

  lemma ClaimedOnce(s: State, ops: seq<Op>, holder: string)
    requires Valid(s) && ops != []
    requires ops[0].Claim? && ops[0].holder == holder && Apply(s, ops[0]).1.Claimed?
    requires NoIdTwice(ClaimedBy(Apply(s, ops[0]).0, ops[1..], holder))
    ensures NoIdTwice(Returned(Apply(s, ops[0]).1) + ClaimedBy(Apply(s, ops[0]).0, ops[1..], holder))
  {
    var (t, out) := Apply(s, ops[0]);
    StepKeepsValid(s, ops[0]);
    ClaimedRows(s, ops[0].role, holder);
    ClaimsWereUnseen(t, ops[1..], holder);
    forall m, n | m in out.messages && n in ClaimedBy(t, ops[1..], holder) ensures m.id != n.id {
      assert Delivery(m.id, holder, Delivered) in t.deliveries;
    }
    NoIdTwiceAppend(out.messages, ClaimedBy(t, ops[1..], holder));
  }

  /**
   `claim_unread` never returns the same message to the same holder twice, in any run from any
   consistent state, whatever the holder is removed from, re-registered in or sent externally.
   */
  lemma {:induction false} AtMostOnce(s: State, ops: seq<Op>, holder: string)
    requires Valid(s)
    ensures NoIdTwice(ClaimedBy(s, ops, holder))
    decreases |ops|
  {
    if ops != [] {
      var (t, out) := Apply(s, ops[0]);
      StepKeepsValid(s, ops[0]);
      AtMostOnce(t, ops[1..], holder);
      if ops[0].Claim? && ops[0].holder == holder && out.Claimed? {
        ClaimedOnce(s, ops, holder);
      } else {
        assert [] + ClaimedBy(t, ops[1..], holder) == ClaimedBy(t, ops[1..], holder);
      }
    }
  }

  // ----- holders do not disturb each other

  predicate ReadsAs(op: Op, role: string, holder: string) {
    match op
    case Claim(r, h) => r == role && h == holder
    case Ack(r, h, _) => r == role && h == holder
    case Advance(r, h, _) => r == role && h == holder
    case _ => false
  }

  ghost predicate HasId(rows: seq<Message>, id: string) {
    exists m :: m in rows && m.id == id
  }

  /** Recording a read hides its rows from that reader's lists, and hides nothing else. */
  lemma HiddenByRead(deliveries: set<Delivery>, rows: seq<Message>, reader: string, id: string, holder: string, role: string)
    ensures Hidden(deliveries + ReadEvents(rows, reader), id, holder, role)
        <==> Hidden(deliveries, id, holder, role) || ((reader == holder || reader == role) && HasId(rows, id))
  {
    var now := deliveries + ReadEvents(rows, reader);
    if Hidden(deliveries, id, holder, role) {
      var d :| d in deliveries && d.messageId == id && (d.reader == holder || d.reader == role) && !d.event.Other?;
      assert d in now;
    }
    if (reader == holder || reader == role) && HasId(rows, id) {
      assert Delivery(id, reader, Delivered) in now;
    }
  }

  /** Ids are unique, so sharing an id with a selected message means being selected. */
  lemma SameIdSameMessage(s: State, rows: seq<Message>, m: Message)
    requires Valid(s) && m in s.messages && forall n :: n in rows ==> n in s.messages
    ensures HasId(rows, m.id) <==> m in rows
  {
  }

  lemma UnreadDependsOn(s: State, t: State, role: string, holder: string)
    requires Key(role, holder) in s.cursors && Key(role, holder) in t.cursors
    requires s.messages == t.messages && s.cursors[Key(role, holder)] == t.cursors[Key(role, holder)]
    requires forall m :: m in s.messages && m.recipient == role ==>
      Hidden(s.deliveries, m.id, holder, role) == Hidden(t.deliveries, m.id, holder, role)
    ensures Unread(s, role, holder) == Unread(t, role, holder)
  {
    var c := s.cursors[Key(role, holder)];
    FilterCongruent(s.messages, UnreadTest(s, role, holder, c), UnreadTest(t, role, holder, c));
  }

  /**
   A claim, ack or advance by a holder whose name is not the role key leaves the unread list of
   every other (role, holder) pair exactly as it was.
   */
  lemma ReadersIndependent(s: State, op: Op, actorRole: string, actor: string, role: string, holder: string)
    requires Valid(s) && Key(role, holder) in s.cursors
    requires ReadsAs(op, actorRole, actor) && (actorRole != role || (actor != holder && actor != role))
    ensures var t := Apply(s, op).0;
      Key(role, holder) in t.cursors && t.messages == s.messages
      && t.cursors[Key(role, holder)] == s.cursors[Key(role, holder)]
      && Unread(t, role, holder) == Unread(s, role, holder)
  {
    var t := Apply(s, op).0;
    var rows := if op.Claim? && Key(actorRole, actor) in s.cursors then Unread(s, actorRole, actor)
                else if op.Ack? && InStream(s.messages, actorRole, op.messageId) then [Lookup(s.messages, actorRole, op.messageId)]
                else [];
    forall m | m in s.messages && m.recipient == role
      ensures Hidden(s.deliveries, m.id, holder, role) == Hidden(t.deliveries, m.id, holder, role)
    {
      HiddenByRead(s.deliveries, rows, actor, m.id, holder, role);
      SameIdSameMessage(s, rows, m);
    }
    UnreadDependsOn(s, t, role, holder);
  }

  /**
   The exception: a holder named like the role key reads for everybody. After its claim every
   other holder has lost exactly the claimed messages.
   */
  lemma RoleKeyHolderDrains(s: State, role: string, holder: string)
    requires Valid(s) && Key(role, holder) in s.cursors && Key(role, role) in s.cursors && holder != role
    ensures var (t, out) := Apply(s, Claim(role, role));
      out.Claimed? && Key(role, holder) in t.cursors
      && Unread(t, role, holder) == Filter(Unread(s, role, holder), NotIn(out.messages))
  {
    var (t, out) := Apply(s, Claim(role, role));
    var c := s.cursors[Key(role, holder)];
    var rows := out.messages;
    forall m | m in s.messages
      ensures IsUnread(t, role, holder, c, m) == (IsUnread(s, role, holder, c, m) && m !in rows)
    {
      HiddenByRead(s.deliveries, rows, role, m.id, holder, role);
      SameIdSameMessage(s, rows, m);
    }
    FilterTwice(s.messages, UnreadTest(s, role, holder, c), NotIn(rows), UnreadTest(t, role, holder, c));
  }

  // ----- nothing lost, nothing replayed

  /** Operations other than the holder's own ack, advance and removal, and deliveries recorded for it or the role key. */
  predicate LeavesToClaims(op: Op, role: string, holder: string) {
    match op
    case Claim(r, h) => r == role && h == role ==> holder == role
    case Ack(r, h, _) => r == role ==> h != holder && h != role
    case Advance(r, h, _) => !(r == role && h == holder)
    case RemoveHolder(r, h) => !(r == role && h == holder)
    case External(d) => d.event.Other? || (d.reader != holder && d.reader != role)
    case _ => true
  }

  /** No delivery for the holder or the role key names a message that does not exist yet. */
  ghost predicate NoDangling(s: State, role: string, holder: string) {
    forall d :: d in s.deliveries && (d.reader == holder || d.reader == role) && !d.event.Other? ==>
      HasId(s.messages, d.messageId)
  }

  /**
   What the holder has claimed so far, followed by what it has unread, is what it had unread at the
   start (`base`) followed by everything appended to the stream since (above `mark`).
   */
  ghost predicate Ledger(s: State, claimed: seq<Message>, role: string, holder: string, base: seq<Message>, mark: nat) {
    && Valid(s)
    && Key(role, holder) in s.cursors
    && mark <= Head(s.messages, role)
    && NoDangling(s, role, holder)
    && claimed + Unread(s, role, holder) == base + Above(s.messages, role, mark)
  }

  lemma OwnClaimEmptiesUnread(s: State, role: string, holder: string)
    requires Valid(s) && Key(role, holder) in s.cursors
    ensures var t := Apply(s, Claim(role, holder)).0;
      Key(role, holder) in t.cursors && Unread(t, role, holder) == []
  {
    var t := Apply(s, Claim(role, holder)).0;
    var rows := Unread(s, role, holder);
    if rows != [] {
      var c := s.cursors[Key(role, holder)];
      var d := t.cursors[Key(role, holder)];
      forall m | m in t.messages ensures !IsUnread(t, role, holder, d, m) {
        HiddenByRead(s.deliveries, rows, holder, m.id, holder, role);
        SameIdSameMessage(s, rows, m);
      }
      FilterNone(t.messages, UnreadTest(t, role, holder, d));
    }
  }

  lemma AppendExtendsUnread(s: State, m: Message, role: string, holder: string, mark: nat)
    requires Valid(s) && Key(role, holder) in s.cursors && mark <= Head(s.messages, role)
    requires NoDangling(s, role, holder) && Apply(s, Append(m)).0 != s
    ensures var t, tail := Apply(s, Append(m)).0, if m.recipient == role then [m] else [];
      && Unread(t, role, holder) == Unread(s, role, holder) + tail
      && Above(t.messages, role, mark) == Above(s.messages, role, mark) + tail
  {
    var c := s.cursors[Key(role, holder)];
    var after := s.(messages := s.messages + [m]);
    NewIsUnread(s, m, role, holder, c);
    FilterSnoc(s.messages, m, UnreadTest(after, role, holder, c));
    FilterCongruent(s.messages, UnreadTest(after, role, holder, c), UnreadTest(s, role, holder, c));
    FilterSnoc(s.messages, m, StreamTest(role, mark));
    HeadBounds(s.messages, role);
  }

  /** An appended message is unread for every holder of its role. */
  lemma NewIsUnread(s: State, m: Message, role: string, holder: string, c: nat)
    requires Valid(s) && NoDangling(s, role, holder) && c <= Head(s.messages, role)
    requires forall x :: x in s.messages ==> x.id != m.id && x.seqNo < m.seqNo
    requires m.seqNo > 0
    ensures IsUnread(s.(messages := s.messages + [m]), role, holder, c, m) == (m.recipient == role)
  {
    HeadBounds(s.messages, role);
  }

  lemma ReadRowsExist(s: State, rows: seq<Message>, reader: string, role: string, holder: string)
    requires NoDangling(s, role, holder) && forall m :: m in rows ==> m in s.messages
    ensures NoDangling(s.(deliveries := s.deliveries + ReadEvents(rows, reader)), role, holder)
  {
    forall d | d in ReadEvents(rows, reader) ensures HasId(s.messages, d.messageId) {
      var m :| m in rows && d.messageId == m.id;
      assert m in s.messages;
    }
  }

  lemma NewRowsExist(s: State, op: Op, role: string, holder: string)
    requires Valid(s) && NoDangling(s, role, holder) && LeavesToClaims(op, role, holder)
    ensures NoDangling(Apply(s, op).0, role, holder)
  {
    if op.Append? {
      MoreMessages(s, op.message, role, holder);
    } else if op.Claim? && Key(op.role, op.holder) in s.cursors {
      ReadRowsExist(s, Unread(s, op.role, op.holder), op.holder, role, holder);
    } else if op.Ack? && InStream(s.messages, op.role, op.messageId) {
      ReadRowsExist(s, [Lookup(s.messages, op.role, op.messageId)], op.holder, role, holder);
    }
  }

  lemma MoreMessages(s: State, m: Message, role: string, holder: string)
    requires NoDangling(s, role, holder)
    ensures NoDangling(s.(messages := s.messages + [m]), role, holder)
  {
    forall id | HasId(s.messages, id) ensures HasId(s.messages + [m], id) {
      var x :| x in s.messages && x.id == id;
      assert x in s.messages + [m];
    }
  }

  /** Every step other than an append and the holder's own claim leaves its unread list alone. */
  lemma OthersLeaveUnread(s: State, op: Op, role: string, holder: string)
    requires Valid(s) && Key(role, holder) in s.cursors
    requires LeavesToClaims(op, role, holder) && !op.Append? && op != Claim(role, holder)
    ensures var t := Apply(s, op).0;
      Key(role, holder) in t.cursors && t.messages == s.messages
      && t.cursors[Key(role, holder)] == s.cursors[Key(role, holder)]
      && Unread(t, role, holder) == Unread(s, role, holder)
  {
    var t := Apply(s, op).0;
    match op
    case Claim(r, h) => ReadersIndependent(s, op, r, h, role, holder);
    case Ack(r, h, _) => ReadersIndependent(s, op, r, h, role, holder);
    case AddHolders(r, hs, i, l) => NewHoldersLeaveUnread(s, op, role, holder);
    case _ => UnreadDependsOn(s, t, role, holder);
  }

  lemma NewHoldersLeaveUnread(s: State, op: Op, role: string, holder: string)
    requires Valid(s) && Key(role, holder) in s.cursors && op.AddHolders?
    ensures var t := Apply(s, op).0;
      Key(role, holder) in t.cursors && t.messages == s.messages
      && t.cursors[Key(role, holder)] == s.cursors[Key(role, holder)]
      && Unread(t, role, holder) == Unread(s, role, holder)
  {
    AddKeepsValid(s, op.role, op.holders, op.inheritFrom, op.live);
    UnreadDependsOn(s, Apply(s, op).0, role, holder);
  }

  lemma SameTail<T>(a: seq<T>, b: seq<T>, c: seq<T>, d: seq<T>, tail: seq<T>)
    requires a + b == c + d
    ensures a + (b + tail) == c + (d + tail)
  {
    assert a + (b + tail) == (a + b) + tail;
    assert c + (d + tail) == (c + d) + tail;
  }

  lemma LedgerAppend(s: State, m: Message, claimed: seq<Message>, role: string, holder: string, base: seq<Message>, mark: nat)
    requires Ledger(s, claimed, role, holder, base, mark) && Apply(s, Append(m)).0 != s
    ensures Ledger(Apply(s, Append(m)).0, claimed, role, holder, base, mark)
  {
    AppendKeepsValid(s, m);
    NewRowsExist(s, Append(m), role, holder);
    AppendExtendsUnread(s, m, role, holder, mark);
    HeadGrows(s.messages, m, role);
    var tail := if m.recipient == role then [m] else [];
    SameTail(claimed, Unread(s, role, holder), base, Above(s.messages, role, mark), tail);
  }

  lemma LedgerClaim(s: State, claimed: seq<Message>, role: string, holder: string, base: seq<Message>, mark: nat)
    requires Ledger(s, claimed, role, holder, base, mark)
    ensures var (t, out) := Apply(s, Claim(role, holder));
      Ledger(t, claimed + Returned(out), role, holder, base, mark)
  {
    ClaimKeepsValid(s, role, holder);
    NewRowsExist(s, Claim(role, holder), role, holder);
    OwnClaimEmptiesUnread(s, role, holder);
    var rows := Unread(s, role, holder);
    assert (claimed + rows) + [] == claimed + rows;
  }

  lemma LedgerStep(s: State, op: Op, claimed: seq<Message>, role: string, holder: string, base: seq<Message>, mark: nat)
    requires Ledger(s, claimed, role, holder, base, mark) && LeavesToClaims(op, role, holder)
    ensures var (t, out) := Apply(s, op);
      Ledger(t, claimed + (if op == Claim(role, holder) then Returned(out) else []), role, holder, base, mark)
  {
    assert claimed + [] == claimed;
    if op.Append? {
      if Apply(s, op).0 != s { LedgerAppend(s, op.message, claimed, role, holder, base, mark); }
    } else if op == Claim(role, holder) {
      LedgerClaim(s, claimed, role, holder, base, mark);
    } else {
      StepKeepsValid(s, op);
      NewRowsExist(s, op, role, holder);
      OthersLeaveUnread(s, op, role, holder);
    }
  }

  lemma FirstStep(s: State, ops: seq<Op>, role: string, holder: string, claimed: seq<Message>)
    requires ops != []
    ensures var (t, out) := Apply(s, ops[0]);
      var got := if ops[0] == Claim(role, holder) then Returned(out) else [];
      && Run(s, ops) == Run(t, ops[1..])
      && claimed + ClaimedFrom(s, ops, role, holder) == (claimed + got) + ClaimedFrom(t, ops[1..], role, holder)
  {
    var (t, out) := Apply(s, ops[0]);
    var got := if ops[0] == Claim(role, holder) then Returned(out) else [];
    Associative(claimed, got, ClaimedFrom(t, ops[1..], role, holder));
  }

  lemma {:induction false} LedgerRun(s: State, ops: seq<Op>, claimed: seq<Message>, role: string, holder: string, base: seq<Message>, mark: nat)
    requires Ledger(s, claimed, role, holder, base, mark)
    requires forall op :: op in ops ==> LeavesToClaims(op, role, holder)
    ensures Ledger(Run(s, ops), claimed + ClaimedFrom(s, ops, role, holder), role, holder, base, mark)
    decreases |ops|
  {
    if ops == [] {
      assert claimed + [] == claimed;
    } else {
      var (t, out) := Apply(s, ops[0]);
      var got := if ops[0] == Claim(role, holder) then Returned(out) else [];
      assert ops[0] in ops;
      LedgerStep(s, ops[0], claimed, role, holder, base, mark);
      LedgerRun(t, ops[1..], claimed + got, role, holder, base, mark);
      FirstStep(s, ops, role, holder, claimed);
    }
  }

  lemma NothingBefore<T>(s: seq<T>)
    ensures [] + s == s == s + []
  {
  }

  lemma LedgerStarts(s: State, role: string, holder: string)
    requires Valid(s) && Key(role, holder) in s.cursors && NoDangling(s, role, holder)
    requires Above(s.messages, role, Head(s.messages, role)) == []
    ensures Ledger(s, [], role, holder, Unread(s, role, holder), Head(s.messages, role))
  {
    NothingBefore(Unread(s, role, holder));
    HeadBounds(s.messages, role);
  }

  /**
   A registered holder that neither acks nor advances: at every point of every interleaving, its
   claims since then followed by its unread list are exactly what it had unread then followed by
   everything appended to the stream since, in stream order.
   */
  lemma NothingLostNothingReplayed(s: State, ops: seq<Op>, role: string, holder: string)
    requires Valid(s) && Key(role, holder) in s.cursors && NoDangling(s, role, holder)
    requires forall op :: op in ops ==> LeavesToClaims(op, role, holder)
    ensures var t := Run(s, ops);
      Key(role, holder) in t.cursors
      && ClaimedFrom(s, ops, role, holder) + Unread(t, role, holder)
         == Unread(s, role, holder) + Above(t.messages, role, Head(s.messages, role))
  {
    var base, mark := Unread(s, role, holder), Head(s.messages, role);
    HeadBounds(s.messages, role);
    FilterNone(s.messages, StreamTest(role, mark));
    LedgerStarts(s, role, holder);
    LedgerRun(s, ops, [], role, holder, base, mark);
    NothingBefore(ClaimedFrom(s, ops, role, holder));
  }

  ghost predicate NoDeliveries(s: State, reader: string) {
    forall d :: d in s.deliveries && d.reader == reader ==> d.event.Other?
  }

  lemma {:induction false} AboveSplits(a: seq<Message>, b: seq<Message>, role: string, low: nat, high: nat)
    requires low <= high
    requires forall m :: m in a && m.recipient == role ==> m.seqNo <= high
    requires forall m :: m in b && m.recipient == role ==> m.seqNo > high
    ensures Above(a + b, role, low) == Above(a, role, low) + Above(a + b, role, high)
  {
    FilterAppend(a, b, StreamTest(role, low));
    FilterOfSecond(a, b, StreamTest(role, high));
    FilterCongruent(b, StreamTest(role, low), StreamTest(role, high));
  }

  lemma StepAppends(s: State, op: Op)
    ensures s.messages <= Apply(s, op).0.messages
  {
  }

  /** Streams are append-only over every run. */
  lemma {:induction false} RunAppends(s: State, ops: seq<Op>)
    requires Valid(s)
    ensures Valid(Run(s, ops)) && s.messages <= Run(s, ops).messages
    decreases |ops|
  {
    if ops != [] {
      StepKeepsValid(s, ops[0]);
      StepAppends(s, ops[0]);
      RunAppends(Apply(s, ops[0]).0, ops[1..]);
    }
  }

  lemma LaterIsAboveHead(s: State, t: State, role: string)
    requires Valid(s) && Valid(t) && s.messages <= t.messages
    ensures forall m :: m in t.messages[|s.messages|..] && m.recipient == role ==> m.seqNo > Head(s.messages, role)
  {
    HeadBounds(s.messages, role);
    forall m | m in t.messages[|s.messages|..] && m.recipient == role ensures m.seqNo > Head(s.messages, role) {
      if Head(s.messages, role) != 0 {
        var n :| n in s.messages && n.recipient == role && n.seqNo == Head(s.messages, role);
        var i :| 0 <= i < |s.messages| && s.messages[i] == n;
        var j :| |s.messages| <= j < |t.messages| && t.messages[j] == m;
        assert t.messages[i] == n;
      } else {
        assert m in t.messages;
      }
    }
  }

  lemma FreshUnreadIsStream(s: State, role: string, holder: string)
    requires Key(role, holder) in s.cursors && NoDeliveries(s, holder) && NoDeliveries(s, role)
    ensures Unread(s, role, holder) == Above(s.messages, role, s.cursors[Key(role, holder)])
  {
    var c := s.cursors[Key(role, holder)];
    FilterCongruent(s.messages, UnreadTest(s, role, holder, c), StreamTest(role, c));
  }

  /**
   The same for a holder with no deliveries recorded for it or for the role key: its claims so far
   followed by its unread list are exactly the role's messages above its starting cursor.
   */
  lemma NewHolderSeesWholeStream(s: State, ops: seq<Op>, role: string, holder: string)
    requires Valid(s) && Key(role, holder) in s.cursors && NoDeliveries(s, holder) && NoDeliveries(s, role)
    requires forall op :: op in ops ==> LeavesToClaims(op, role, holder)
    ensures var t := Run(s, ops);
      Key(role, holder) in t.cursors
      && ClaimedFrom(s, ops, role, holder) + Unread(t, role, holder)
         == Above(t.messages, role, s.cursors[Key(role, holder)])
  {
    NothingLostNothingReplayed(s, ops, role, holder);
    FreshUnreadIsStream(s, role, holder);
    RunAppends(s, ops);
    StreamContinues(s, Run(s, ops), role, s.cursors[Key(role, holder)]);
  }

  lemma StreamContinues(s: State, t: State, role: string, position: nat)
    requires Valid(s) && Valid(t) && s.messages <= t.messages && position <= Head(s.messages, role)
    ensures Above(t.messages, role, position) == Above(s.messages, role, position) + Above(t.messages, role, Head(s.messages, role))
  {
    var later := t.messages[|s.messages|..];
    HeadBounds(s.messages, role);
    LaterIsAboveHead(s, t, role);
    assert t.messages == s.messages + later;
    AboveSplits(s.messages, later, role, position, Head(s.messages, role));
  }

  /** An ack leaves exactly the unread messages that come later in the stream than the acked one. */
  lemma AckLeavesLater(s: State, role: string, holder: string, id: string)
    requires Valid(s) && Key(role, holder) in s.cursors && InStream(s.messages, role, id)
    ensures var t := Apply(s, Ack(role, holder, id)).0;
      Key(role, holder) in t.cursors
      && Unread(t, role, holder)
         == Filter(Unread(s, role, holder), LaterThan(Lookup(s.messages, role, id).seqNo))
  {
    var acked := Lookup(s.messages, role, id);
    var t := Apply(s, Ack(role, holder, id)).0;
    var c, d := s.cursors[Key(role, holder)], t.cursors[Key(role, holder)];
    var before := UnreadTest(s, role, holder, c);
    var later := LaterThan(acked.seqNo);
    forall m | m in s.messages ensures IsUnread(t, role, holder, d, m) == (before(m) && later(m)) {
      HiddenByRead(s.deliveries, [acked], holder, m.id, holder, role);
      SameIdSameMessage(s, [acked], m);
    }
    FilterTwice(s.messages, before, later, UnreadTest(t, role, holder, d));
  }

  /** An advance leaves exactly the unread messages above the position it names. */
  lemma AdvanceLeavesLater(s: State, role: string, holder: string, to: int)
    requires Key(role, holder) in s.cursors && 0 <= to <= Head(s.messages, role)
    ensures var (t, out) := Apply(s, Advance(role, holder, to));
      out == Done && Key(role, holder) in t.cursors
      && Unread(t, role, holder) == Filter(Unread(s, role, holder), LaterThan(to))
  {
    var t := Apply(s, Advance(role, holder, to)).0;
    FilterTwice(s.messages, UnreadTest(s, role, holder, s.cursors[Key(role, holder)]), LaterThan(to),
                UnreadTest(t, role, holder, t.cursors[Key(role, holder)]));
  }

  /** The events of the unread query. */
  predicate HidesMessage(d: Delivery, role: string, holder: string) {
    (d.reader == holder || d.reader == role) && (d.event == Delivered || d.event == Dropped || d.event == Legacy || d.event == Acked)
  }

  function NotOf(d: Delivery): Message -> bool {
    (m: Message) => m.id != d.messageId
  }

  /** A delivery recorded from outside takes its message out of a holder's unread list, or nothing. */
  lemma ExternalHides(s: State, d: Delivery, role: string, holder: string)
    requires Key(role, holder) in s.cursors
    ensures var t := Apply(s, External(d)).0;
      Key(role, holder) in t.cursors
      && Unread(t, role, holder)
         == if HidesMessage(d, role, holder) then Filter(Unread(s, role, holder), NotOf(d)) else Unread(s, role, holder)
  {
    var t, c := Apply(s, External(d)).0, s.cursors[Key(role, holder)];
    forall m | m in s.messages
      ensures IsUnread(t, role, holder, c, m) == (IsUnread(s, role, holder, c, m) && (!HidesMessage(d, role, holder) || NotOf(d)(m)))
    {
      assert Hidden(t.deliveries, m.id, holder, role)
        <==> Hidden(s.deliveries, m.id, holder, role) || (d.messageId == m.id && HidesMessage(d, role, holder)) by {
        HiddenByOne(s.deliveries, d, m.id, holder, role);
      }
    }
    if HidesMessage(d, role, holder) {
      FilterTwice(s.messages, UnreadTest(s, role, holder, c), NotOf(d), UnreadTest(t, role, holder, c));
    } else {
      FilterCongruent(s.messages, UnreadTest(s, role, holder, c), UnreadTest(t, role, holder, c));
    }
  }

  lemma HiddenByOne(deliveries: set<Delivery>, d: Delivery, id: string, holder: string, role: string)
    ensures Hidden(deliveries + {d}, id, holder, role)
       <==> Hidden(deliveries, id, holder, role) || (d.messageId == id && HidesMessage(d, role, holder))
  {
    assert d in deliveries + {d};
    if Hidden(deliveries, id, holder, role) {
      var x :| x in deliveries && x.messageId == id && (x.reader == holder || x.reader == role) && !x.event.Other?;
      assert x in deliveries + {d};
    }
  }

  /** A message is appended exactly if its id is new and its sequence number is positive and above all others. */
  lemma AppendsIff(s: State, m: Message)
    ensures var (t, out) := Apply(s, Append(m));
      if m.seqNo > 0 && forall x :: x in s.messages ==> x.id != m.id && x.seqNo < m.seqNo
      then out == Done && t == s.(messages := s.messages + [m])
      else out == Raised(IntegrityError)
  {
  }

  ghost predicate BeyondStream(messages: seq<Message>, role: string, to: int) {
    to < 0 || (to > 0 && forall m :: m in messages && m.recipient == role ==> m.seqNo < to)
  }

  /** A reading operation raises exactly for a holder not registered, a message not in the stream, or a position beyond it. */
  lemma ReadingRaisesIff(s: State, op: Op)
    requires op.Claim? || op.Advance? || op.Ack?
    ensures var out, registered := Apply(s, op).1, Key(op.role, op.holder) in s.cursors;
      match op
      case Claim(_, _) => if registered then out.Claimed? else out == Raised(NotFound)
      case Advance(role, _, to) =>
        if BeyondStream(s.messages, role, to) then out == Raised(Invalid) else if registered then out == Done else out == Raised(NotFound)
      case Ack(role, _, id) =>
        if registered && exists m :: m in s.messages && m.id == id && m.recipient == role then out == Done else out == Raised(NotFound)
      case _ => true
  {
    HeadBounds(s.messages, op.role);
  }

  /** A new name comes twice. */
  ghost predicate NewTwice(s: State, role: string, holders: seq<string>) {
    exists i, j :: 0 <= i < j < |holders| && holders[i] == holders[j] && Key(role, holders[i]) !in s.cursors
  }

  lemma {:induction false} NewTwiceIff(s: State, role: string, holders: seq<string>)
    ensures NewTwice(s, role, holders) <==> Repeats(Filter(holders, Newcomer(s.cursors, role)))
  {
    if holders != [] {
      var t, h := holders[..|holders| - 1], holders[|holders| - 1];
      var isNew := Newcomer(s.cursors, role);
      var names := Filter(t, isNew);
      NewTwiceIff(s, role, t);
      NewTwiceNext(s, role, t, h);
      SplitLast(holders);
      FilterSnoc(t, h, isNew);
      if isNew(h) {
        RepeatsNext(names, h);
        assert h in names <==> h in t;
      }
    }
  }

  lemma NewTwiceNext(s: State, role: string, t: seq<string>, h: string)
    ensures NewTwice(s, role, t + [h]) <==> NewTwice(s, role, t) || (h in t && Key(role, h) !in s.cursors)
  {
    var all := t + [h];
    if NewTwice(s, role, t) {
      var i, j :| 0 <= i < j < |t| && t[i] == t[j] && Key(role, t[i]) !in s.cursors;
      assert all[i] == all[j];
    }
    if h in t && Key(role, h) !in s.cursors {
      var i :| 0 <= i < |t| && t[i] == h;
      assert all[i] == all[|t|];
    }
  }

  lemma RepeatsNext(names: seq<string>, h: string)
    ensures Repeats(names + [h]) <==> Repeats(names) || h in names
  {
    var all := names + [h];
    if Repeats(names) {
      var i, j :| 0 <= i < j < |names| && names[i] == names[j];
      assert all[i] == all[j];
    }
    if h in names {
      var i :| 0 <= i < |names| && names[i] == h;
      assert all[i] == all[|names|];
    }
  }

  lemma NothingNew(s: State, role: string, holders: seq<string>)
    ensures Filter(holders, Newcomer(s.cursors, role)) == [] <==> forall h :: h in holders ==> Key(role, h) in s.cursors
  {
    var newcomers := Filter(holders, Newcomer(s.cursors, role));
    if newcomers != [] { assert newcomers[0] in newcomers; }
  }

  lemma StartUnknown(s: State, role: string, inheritFrom: Option<string>, live: Option<set<string>>)
    ensures StartCursor(s, role, inheritFrom, live).None? <==> inheritFrom.Some? && Key(role, inheritFrom.value) !in s.cursors
  {
  }

  lemma RegisterOutcome(s: State, role: string, holders: seq<string>, start: Option<nat>)
    ensures var newcomers := Filter(holders, Newcomer(s.cursors, role));
      Register(s, role, holders, start).1 ==
        if holders == [] || "" in holders then Raised(Invalid)
        else if newcomers == [] then Done
        else if start.None? then Raised(NotFound)
        else if Repeats(newcomers) then Raised(IntegrityError)
        else Done
  {
  }

  /**
   Registering raises exactly for no names or an empty one, for a predecessor that is not registered, and for a new
   name given twice; with nothing new to register it never raises.
   */
  lemma RegisteringRaisesIff(s: State, role: string, holders: seq<string>, inheritFrom: Option<string>, live: Option<set<string>>)
    ensures var out := Apply(s, AddHolders(role, holders, inheritFrom, live)).1;
      if holders == [] || "" in holders then out == Raised(Invalid)
      else if forall h :: h in holders ==> Key(role, h) in s.cursors then out == Done
      else if inheritFrom.Some? && Key(role, inheritFrom.value) !in s.cursors then out == Raised(NotFound)
      else if NewTwice(s, role, holders) then out == Raised(IntegrityError)
      else out == Done
  {
    NewTwiceIff(s, role, holders);
    NothingNew(s, role, holders);
    StartUnknown(s, role, inheritFrom, live);
    RegisterOutcome(s, role, holders, StartCursor(s, role, inheritFrom, live));
  }

  /** Removing a holder takes its cursor away, tells whether it had one, and touches no other cursor. */
  lemma RemovesOne(s: State, role: string, holder: string, k: Key)
    ensures var (t, out) := Apply(s, RemoveHolder(role, holder));
      && out == Removed(Key(role, holder) in s.cursors)
      && (k in t.cursors <==> k in s.cursors && k != Key(role, holder)) && (k in t.cursors ==> t.cursors[k] == s.cursors[k])
      && t.messages == s.messages && t.deliveries == s.deliveries
  {
  }

  /** The operation hands the message to the holder, or the holder acks it. */
  predicate Reads(s: State, op: Op, holder: string, id: string) {
    match op
    case Claim(_, h) => h == holder && exists m :: m in Returned(Apply(s, op).1) && m.id == id
    case Ack(_, h, i) => h == holder && i == id && Apply(s, op).1 == Done
    case _ => false
  }

  lemma ReadIsRecorded(s: State, op: Op, holder: string, id: string)
    requires Reads(s, op, holder, id)
    ensures {Delivery(id, holder, Delivered), Delivery(id, holder, Acked)} <= Apply(s, op).0.deliveries
  {
  }

  lemma {:induction false} RecordsStay(s: State, ops: seq<Op>)
    requires Valid(s)
    ensures s.deliveries <= Run(s, ops).deliveries
    decreases |ops|
  {
    if ops != [] {
      StepKeepsValid(s, ops[0]);
      StepMonotone(s, ops[0]);
      RecordsStay(Apply(s, ops[0]).0, ops[1..]);
    }
  }

  /**
   What a holder has been given or has acked is never unread for it again, in any later run, even after it was
   removed and registered anew at an earlier position.
   */
  lemma ReadNeverReturns(s: State, op: Op, later: seq<Op>, role: string, holder: string, m: Message)
    requires Valid(s) && Reads(s, op, holder, m.id)
    requires Key(role, holder) in Run(Apply(s, op).0, later).cursors
    ensures m !in Unread(Run(Apply(s, op).0, later), role, holder)
  {
    ReadIsRecorded(s, op, holder, m.id);
    StepKeepsValid(s, op);
    RecordsStay(Apply(s, op).0, later);
    assert Delivery(m.id, holder, Delivered) in Run(Apply(s, op).0, later).deliveries;
  }

  /** An operation that raises changes nothing. */
  lemma RaisingChangesNothing(s: State, op: Op)
    requires Apply(s, op).1.Raised?
    ensures Apply(s, op).0 == s
  {
  }

  // ----- succession

  /** `holder` is registered by this call, and the call succeeds. */
  ghost predicate Registers(s: State, op: Op, holder: string) {
    && op.AddHolders? && holder in op.holders
    && Key(op.role, holder) !in s.cursors
    && Apply(s, op).1 == Done
  }

  predicate SomeHolderLive(s: State, op: Op)
    requires op.AddHolders?
  {
    var existing := Holders(s.cursors, op.role);
    existing * (if op.live.Some? then op.live.value else existing) != {}
  }

  lemma RegisteredAtStart(s: State, op: Op, holder: string)
    requires Valid(s) && Registers(s, op, holder)
    ensures var t, k := Apply(s, op).0, Key(op.role, holder);
      t.messages == s.messages && t.deliveries == s.deliveries && k in t.cursors
      && StartCursor(s, op.role, op.inheritFrom, op.live) == Some(t.cursors[k])
  {
    assert holder in Filter(op.holders, Newcomer(s.cursors, op.role));
  }

  /**
   What the newcomer of a registering call is to read: what is above its predecessor's cursor, or without one
   nothing while a registered holder is live, everything when nobody is registered, and otherwise what is above
   the cursor of some registered holder.
   */
  ghost predicate IsBacklog(s: State, op: Op, m: Message)
    requires op.AddHolders?
  {
    match op.inheritFrom
    case Some(prior) => Key(op.role, prior) in s.cursors && m.seqNo > s.cursors[Key(op.role, prior)]
    case None =>
      && !SomeHolderLive(s, op)
      && (|| (forall h :: Key(op.role, h) !in s.cursors)
          || (exists h :: Key(op.role, h) in s.cursors && m.seqNo > s.cursors[Key(op.role, h)]))
  }

  /** Without a live holder or a predecessor the start is zero or the cursor of the holder that lags most. */
  lemma StartsLowest(s: State, op: Op)
    requires op.AddHolders? && op.inheritFrom.None? && !SomeHolderLive(s, op)
    ensures var c := StartCursor(s, op.role, op.inheritFrom, op.live);
      && c.Some? && (forall h :: Key(op.role, h) in s.cursors ==> c.value <= s.cursors[Key(op.role, h)])
      && if forall h :: Key(op.role, h) !in s.cursors then c.value == 0
         else exists h :: Key(op.role, h) in s.cursors && s.cursors[Key(op.role, h)] == c.value
  {
    var ps := Positions(s.cursors, op.role);
    forall h | Key(op.role, h) in s.cursors ensures s.cursors[Key(op.role, h)] in ps {
    }
    if ps != {} {
      var c := Lowest(ps);
      var k :| k in s.cursors && k.role == op.role && s.cursors[k] == c;
      assert Key(op.role, k.holder) == k;
    }
  }

  lemma AboveStart(s: State, op: Op, m: Message)
    requires Valid(s) && op.AddHolders? && m in s.messages && m.recipient == op.role
    requires StartCursor(s, op.role, op.inheritFrom, op.live).Some?
    ensures m.seqNo > StartCursor(s, op.role, op.inheritFrom, op.live).value <==> IsBacklog(s, op, m)
  {
    if op.inheritFrom.None? {
      if SomeHolderLive(s, op) { HeadBounds(s.messages, op.role); } else { StartsLowest(s, op); }
    }
  }

  /** A newcomer has unread exactly the messages of its backlog that no delivery to itself or to the role hides. */
  lemma NewcomerReads(s: State, op: Op, holder: string, m: Message)
    requires Valid(s) && Registers(s, op, holder)
    ensures var t := Apply(s, op).0;
      Key(op.role, holder) in t.cursors
      && (m in Unread(t, op.role, holder) <==>
            m in s.messages && m.recipient == op.role && IsBacklog(s, op, m) && !Hidden(s.deliveries, m.id, holder, op.role))
  {
    RegisteredAtStart(s, op, holder);
    if m in s.messages && m.recipient == op.role { AboveStart(s, op, m); }
  }

  /** The first holder of a role reads all mail queued before it was bound. */
  lemma FirstHolderReadsAll(s: State, op: Op, holder: string)
    requires Valid(s) && Registers(s, op, holder) && op.inheritFrom.None? && Holders(s.cursors, op.role) == {}
    ensures var t := Apply(s, op).0;
      Key(op.role, holder) in t.cursors
      && forall m :: m in s.messages && m.recipient == op.role && !Hidden(s.deliveries, m.id, holder, op.role) ==>
           m in Unread(t, op.role, holder)
  {
    var t := Apply(s, op).0;
    RegisteredAtStart(s, op, holder);
    forall h ensures Key(op.role, h) in s.cursors ==> h in Holders(s.cursors, op.role) {
    }
    forall m | m in s.messages && m.recipient == op.role && !Hidden(s.deliveries, m.id, holder, op.role)
      ensures m in Unread(t, op.role, holder)
    {
      assert !SomeHolderLive(s, op) && IsBacklog(s, op, m);
      NewcomerReads(s, op, holder, m);
    }
  }

  /** A call that succeeds registers every name it is given, and nothing else changes. */
  lemma RegistersExactly(s: State, op: Op, k: Key)
    requires op.AddHolders? && Apply(s, op).1 == Done
    ensures var t := Apply(s, op).0;
      && t.messages == s.messages && t.deliveries == s.deliveries
      && (k in t.cursors <==> k in s.cursors || (k.role == op.role && k.holder in op.holders))
      && (k in s.cursors ==> t.cursors[k] == s.cursors[k])
  {
    var newcomers := Filter(op.holders, Newcomer(s.cursors, op.role));
    assert k == Key(k.role, k.holder);
    assert k.holder in newcomers <==> k.holder in op.holders && Key(op.role, k.holder) !in s.cursors;
  }

  /** While a registered holder is live, a newcomer that inherits nothing starts with nothing to read. */
  lemma LiveHolderMeansCleanStart(s: State, op: Op, holder: string)
    requires Valid(s) && Registers(s, op, holder) && op.inheritFrom.None? && SomeHolderLive(s, op)
    ensures var t := Apply(s, op).0;
      Key(op.role, holder) in t.cursors && Unread(t, op.role, holder) == []
  {
    var t := Apply(s, op).0;
    RegisteredAtStart(s, op, holder);
    HeadBounds(s.messages, op.role);
    FilterNone(s.messages, UnreadTest(t, op.role, holder, Head(s.messages, op.role)));
  }

  /**
   With no live holder, or inheriting from `prior`, the newcomer takes over the backlog of every
   registered holder (of `prior`), except exactly the messages already delivered to its own name.
   */
  lemma SuccessorTakesBacklog(s: State, op: Op, holder: string, prior: string, m: Message)
    requires Valid(s) && Registers(s, op, holder) && Key(op.role, prior) in s.cursors
    requires op.inheritFrom == Some(prior) || (op.inheritFrom.None? && !SomeHolderLive(s, op))
    requires m in Unread(s, op.role, prior)
    ensures var t := Apply(s, op).0;
      Key(op.role, holder) in t.cursors
      && (m in Unread(t, op.role, holder) <==> !Hidden(s.deliveries, m.id, holder, holder))
  {
    var t, k := Apply(s, op).0, Key(op.role, prior);
    RegisteredAtStart(s, op, holder);
    var ps := Positions(s.cursors, op.role);
    assert s.cursors[k] in ps;
    assert IsUnread(s, op.role, prior, s.cursors[k], m);
    assert prior in Holders(s.cursors, op.role);
    assert t.cursors[Key(op.role, holder)] <= s.cursors[k];
  }

  /**
   Safe succession: whatever `prior` had not read when a newly named `holder` succeeded it is, at every
   later point, among what the successor has claimed or still has unread.
   */
  lemma SuccessionLosesNothing(s: State, op: Op, later: seq<Op>, holder: string, prior: string, m: Message)
    requires Valid(s) && Registers(s, op, holder) && Key(op.role, prior) in s.cursors
    requires op.inheritFrom == Some(prior) || (op.inheritFrom.None? && !SomeHolderLive(s, op))
    requires NoDeliveries(s, holder) && NoDangling(s, op.role, holder)
    requires forall o :: o in later ==> LeavesToClaims(o, op.role, holder)
    requires m in Unread(s, op.role, prior)
    ensures var t := Apply(s, op).0;
      var u := Run(t, later);
      Key(op.role, holder) in u.cursors
      && (m in ClaimedFrom(t, later, op.role, holder) || m in Unread(u, op.role, holder))
  {
    var t := Apply(s, op).0;
    SuccessorTakesBacklog(s, op, holder, prior, m);
    StepKeepsValid(s, op);
    NothingLostNothingReplayed(t, later, op.role, holder);
    var u := Run(t, later);
    assert m in Unread(t, op.role, holder) + Above(u.messages, op.role, Head(t.messages, op.role));
    assert m in ClaimedFrom(t, later, op.role, holder) + Unread(u, op.role, holder);
  }

  // ----- the tables, updated in place

  lemma RepeatsAppend(names: seq<string>, h: string, more: seq<string>)
    ensures h in names ==> Repeats(names + [h] + more)
    ensures !Repeats(names) && h !in names ==> !Repeats(names + [h])
  {
    var longer := names + [h] + more;
    if h in names {
      var j :| 0 <= j < |names| && names[j] == h;
      assert longer[j] == longer[|names|];
    }
  }

  lemma RowsForAppend(before: map<Key, nat>, role: string, names: seq<string>, h: string, cursor: nat)
    ensures before + RowsFor(role, names + [h], cursor) == (before + RowsFor(role, names, cursor))[Key(role, h) := cursor]
  {
    assert RowsFor(role, names + [h], cursor) == RowsFor(role, names, cursor)[Key(role, h) := cursor];
  }

  /** The inbox database. Each method is one transaction and does to the tables what `Apply` says. */
  class Inbox {
    var messages: seq<Message>
    var cursors: map<Key, nat>
    var deliveries: set<Delivery>

    ghost function Tables(): State
      reads this
    {
      State(messages, cursors, deliveries)
    }

    constructor ()
      ensures Tables() == State([], map[], {}) && Valid(Tables())
    {
      messages, cursors, deliveries := [], map[], {};
    }

    method AppendMessage(m: Message) returns (out: Outcome)
      modifies this
      ensures (Tables(), out) == Apply(old(Tables()), Append(m))
    {
      if m.seqNo == 0 || exists x :: x in messages && (x.id == m.id || x.seqNo >= m.seqNo) {
        return Raised(IntegrityError);
      }
      messages := messages + [m];
      out := Done;
    }

    /** `_record_read_events`: insert each of the two events unless it is already there. */
    method RecordReadEvents(id: string, holder: string)
      modifies this`deliveries
      ensures deliveries == old(deliveries) + {Delivery(id, holder, Delivered), Delivery(id, holder, Acked)}
    {
      var events := [Delivered, Acked];
      for i := 0 to 2
        invariant deliveries == old(deliveries) + (if i == 0 then {} else {Delivery(id, holder, Delivered)})
                                + (if i == 2 then {Delivery(id, holder, Acked)} else {})
      {
        if Delivery(id, holder, events[i]) !in deliveries {
          deliveries := deliveries + {Delivery(id, holder, events[i])};
        }
      }
    }

    method RecordAll(rows: seq<Message>, holder: string)
      modifies this`deliveries
      ensures deliveries == old(deliveries) + ReadEvents(rows, holder)
    {
      assert ReadEvents(rows[..0], holder) == {};
      for i := 0 to |rows|
        invariant deliveries == old(deliveries) + ReadEvents(rows[..i], holder)
      {
        ReadEventsNext(rows, i, holder);
        RecordReadEvents(rows[i].id, holder);
      }
      assert rows[..|rows|] == rows;
    }

    method ClaimUnread(role: string, holder: string) returns (out: Outcome)
      modifies this
      ensures (Tables(), out) == Apply(old(Tables()), Claim(role, holder))
    {
      var k := Key(role, holder);
      if k !in cursors {
        return Raised(NotFound);
      }
      var rows := Unread(State(messages, cursors, deliveries), role, holder);
      RecordAll(rows, holder);
      if rows != [] {
        cursors := cursors[k := Max(cursors[k], rows[|rows| - 1].seqNo)];
      } else {
        assert ReadEvents(rows, holder) == {} && deliveries == old(deliveries);
      }
      out := Claimed(rows);
    }

    method AdvanceCursor(role: string, holder: string, to: int) returns (out: Outcome)
      modifies this`cursors
      ensures (Tables(), out) == Apply(old(Tables()), Advance(role, holder, to))
    {
      var k := Key(role, holder);
      if to < 0 || to > Head(messages, role) {
        return Raised(Invalid);
      }
      if k !in cursors {
        return Raised(NotFound);
      }
      cursors := cursors[k := Max(cursors[k], to)];
      out := Done;
    }

    method AckMessage(role: string, holder: string, id: string) returns (out: Outcome)
      modifies this
      ensures (Tables(), out) == Apply(old(Tables()), Ack(role, holder, id))
    {
      var k := Key(role, holder);
      if !InStream(messages, role, id) || k !in cursors {
        return Raised(NotFound);
      }
      var m := Lookup(messages, role, id);
      cursors := cursors[k := Max(cursors[k], m.seqNo)];
      RecordReadEvents(id, holder);
      assert ReadEvents([m], holder) == {Delivery(id, holder, Delivered), Delivery(id, holder, Acked)};
      out := Done;
    }

    /** Inserts one row per new holder; a repeated name violates the primary key and rolls everything back. */
    method AddHolderRows(role: string, holders: seq<string>, inheritFrom: Option<string>, live: Option<set<string>>)
      returns (out: Outcome)
      modifies this`cursors
      ensures (Tables(), out) == Apply(old(Tables()), AddHolders(role, holders, inheritFrom, live))
    {
      if holders == [] || "" in holders {
        return Raised(Invalid);
      }
      var isNew := Newcomer(cursors, role);
      if Filter(holders, isNew) == [] {
        return Done;
      }
      var start := StartCursor(State(messages, cursors, deliveries), role, inheritFrom, live);
      if start.None? {
        return Raised(NotFound);
      }
      var rows, repeated := InsertRows(cursors, role, holders, start.value);
      if repeated {
        return Raised(IntegrityError);
      }
      cursors := rows;
      out := Done;
    }

    /** The loop of `INSERT`s, stopping at the first name inserted twice. */
    static method InsertRows(before: map<Key, nat>, role: string, holders: seq<string>, start: nat)
      returns (rows: map<Key, nat>, repeated: bool)
      ensures repeated == Repeats(Filter(holders, Newcomer(before, role)))
      ensures !repeated ==> rows == before + RowsFor(role, Filter(holders, Newcomer(before, role)), start)
    {
      var isNew := Newcomer(before, role);
      ghost var names: seq<string> := [];
      rows := before;
      for i := 0 to |holders|
        invariant names == Filter(holders[..i], isNew) && !Repeats(names)
        invariant rows == before + RowsFor(role, names, start)
      {
        var h := holders[i];
        FilterPrefix(holders, isNew, i);
        if isNew(h) {
          RepeatsAppend(names, h, Filter(holders[i + 1..], isNew));
          if Key(role, h) in rows {
            FilterSplit(holders, isNew, i + 1);
            return rows, true;
          }
          RowsForAppend(before, role, names, h, start);
          rows := rows[Key(role, h) := start];
          names := names + [h];
        }
      }
      assert holders[..|holders|] == holders;
      repeated := false;
    }

    method RemoveHolderRow(role: string, holder: string) returns (out: Outcome)
      modifies this`cursors
      ensures (Tables(), out) == Apply(old(Tables()), RemoveHolder(role, holder))
    {
      out := Removed(Key(role, holder) in cursors);
      cursors := cursors - {Key(role, holder)};
    }
  }
}

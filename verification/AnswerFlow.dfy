/**
 Delivery of stored decision answers. Every repository call, mailbox read and send is one atomic
 step of some thread; threads interleave freely and may crash between any two steps. A send may
 raise after the message has reached the mailbox. The mailbox lists the notes path of each message.
 */
module AnswerFlow {
  datatype Status = Stored | Sending | Failed | Delivered

  datatype Entry = Entry(status: Status, notes: string)

  /** What a thread will do next. `seen` is the status its compare-and-set expects. */
  datatype Pc =
    | Noting(entry: string)
    | NoteFailed(entry: string)
    | Claiming(entry: string, seen: Status, retry: bool)
    | SendingNow(entry: string, retry: bool)
    | Sent(entry: string, retry: bool)
    | Returned(entry: string, retry: bool)
    | Raised(entry: string, retry: bool)
    | Looking(entry: string, seen: Status)
    | Found(entry: string, seen: Status)
    | Recovering(rows: set<string>)
    | Reconciling(found: set<string>)

  type Threads = map<nat, Pc>

  datatype State = State(entries: map<string, Entry>, mailbox: seq<string>, threads: Threads)

  datatype Step =
    | Submit(t: nat, entry: string, notes: string, permission: bool)
    | WriteNote(t: nat, ok: bool)
    | MarkNoteFailed(t: nat)
    | Claim(t: nat)
    | SendEffect(t: nat)
    | SendRaise(t: nat)
    | SendReturn(t: nat)
    | MarkDelivered(t: nat)
    | MarkFailed(t: nat)
    | StartRetry(t: nat, entry: string)
    | ReadMailbox(t: nat, ok: bool)
    | MarkReconciled(t: nat)
    | StartRecover(t: nat)
    | RecoverRead(t: nat, ok: bool)
    | RecoverOne(t: nat, entry: string)
    | Finish(t: nat)
    | Crash(t: nat)

  // ----- steps

  /** `transition_entry`: compare and set. */
  function Transition(entries: map<string, Entry>, e: string, from: Status, to: Status): map<string, Entry> {
    if e in entries && entries[e].status == from then entries[e := entries[e].(status := to)] else entries
  }

  function End(s: State, t: nat): State {
    s.(threads := s.threads - {t})
  }

  function Goto(s: State, t: nat, pc: Pc): State {
    s.(threads := s.threads[t := pc])
  }

  function WithStatus(entries: map<string, Entry>, status: Status): set<string> {
    set e | e in entries && entries[e].status == status
  }

  predicate Known(s: State, t: nat) { t in s.threads && (s.threads[t].Recovering? || s.threads[t].Reconciling? || s.threads[t].entry in s.entries) }

  /** When a step can happen, retries overlapping or not. Fresh entries have fresh notes paths. */
  ghost predicate Enabled(s: State, step: Step) {
    match step
    case Submit(t, e, notes, _) =>
      t !in s.threads && e !in s.entries && notes !in s.mailbox && forall x :: x in s.entries ==> s.entries[x].notes != notes
    case WriteNote(t, _) => Known(s, t) && s.threads[t].Noting?
    case MarkNoteFailed(t) => Known(s, t) && s.threads[t].NoteFailed?
    case Claim(t) => Known(s, t) && s.threads[t].Claiming?
    case SendEffect(t) => Known(s, t) && s.threads[t].SendingNow?
    case SendRaise(t) => Known(s, t) && (s.threads[t].SendingNow? || s.threads[t].Sent?)
    case SendReturn(t) => Known(s, t) && s.threads[t].Sent?
    case MarkDelivered(t) => Known(s, t) && s.threads[t].Returned?
    case MarkFailed(t) => Known(s, t) && s.threads[t].Raised?
    case StartRetry(t, e) => t !in s.threads && e in s.entries
    case ReadMailbox(t, _) => Known(s, t) && s.threads[t].Looking?
    case MarkReconciled(t) => Known(s, t) && s.threads[t].Found?
    case StartRecover(t) => t !in s.threads
    case RecoverRead(t, _) => Known(s, t) && s.threads[t].Recovering?
    case RecoverOne(t, e) => Known(s, t) && s.threads[t].Reconciling? && e in s.threads[t].found
    case Finish(t) => Known(s, t) && s.threads[t].Reconciling? && s.threads[t].found == {}
    case Crash(t) => t in s.threads
  }

  ghost function Apply(s: State, step: Step): State
    requires Enabled(s, step)
  {
    match step
    case Submit(t, e, notes, permission) =>
      var stored := s.(entries := s.entries[e := Entry(Stored, notes)]);
      if permission then stored else Goto(stored, t, Noting(e))
    case WriteNote(t, ok) =>
      var e := s.threads[t].entry;
      Goto(s, t, if ok then Claiming(e, Stored, false) else NoteFailed(e))
    case MarkNoteFailed(t) =>
      End(s.(entries := Transition(s.entries, s.threads[t].entry, Stored, Failed)), t)
    case Claim(t) =>
      var Claiming(e, seen, retry) := s.threads[t];
      if s.entries[e].status == seen
      then Goto(s.(entries := Transition(s.entries, e, seen, Sending)), t, SendingNow(e, retry))
      else End(s, t)
    case SendEffect(t) =>
      var SendingNow(e, retry) := s.threads[t];
      Goto(s.(mailbox := s.mailbox + [s.entries[e].notes]), t, Sent(e, retry))
    case SendRaise(t) => Goto(s, t, Raised(s.threads[t].entry, s.threads[t].retry))
    case SendReturn(t) => Goto(s, t, Returned(s.threads[t].entry, s.threads[t].retry))
    case MarkDelivered(t) =>
      End(s.(entries := Transition(s.entries, s.threads[t].entry, Sending, Delivered)), t)
    case MarkFailed(t) =>
      End(s.(entries := Transition(s.entries, s.threads[t].entry, Sending, Failed)), t)
    case StartRetry(t, e) =>
      var status := s.entries[e].status;
      if status == Failed || status == Stored then Goto(s, t, Looking(e, status)) else s
    case ReadMailbox(t, ok) =>
      var Looking(e, seen) := s.threads[t];
      if !ok then End(s, t)
      else if s.entries[e].notes in s.mailbox then Goto(s, t, Found(e, seen))
      else Goto(s, t, Claiming(e, seen, true))
    case MarkReconciled(t) =>
      var Found(e, seen) := s.threads[t];
      End(s.(entries := Transition(s.entries, e, seen, Delivered)), t)
    case StartRecover(t) =>
      var rows := WithStatus(s.entries, Sending);
      if rows == {} then s else Goto(s, t, Recovering(rows))
    case RecoverRead(t, ok) =>
      if !ok then End(s, t)
      else Goto(s, t, Reconciling(set e | e in s.threads[t].rows && e in s.entries && s.entries[e].notes in s.mailbox))
    case RecoverOne(t, e) =>
      Goto(s.(entries := Transition(s.entries, e, Sending, Delivered)), t, Reconciling(s.threads[t].found - {e}))
    case Finish(t) => End(s, t)
    case Crash(t) => End(s, t)
  }

  /** The thread has claimed the entry and not yet settled its outcome. */
  predicate Sends(pc: Pc, e: string) {
    (pc.SendingNow? || pc.Sent? || pc.Returned? || pc.Raised?) && pc.entry == e
  }

  /** The thread is to send for an entry without looking for its message again. */
  predicate Pending(pc: Pc, e: string) {
    (pc.SendingNow? && pc.entry == e) || (pc.Claiming? && pc.entry == e && pc.seen == Failed)
  }

  /** A claim that expects `Failed` can still succeed: the entry is failed, or a thread can make it so. */
  ghost predicate Live(s: State, e: string) {
    e in s.entries && (s.entries[e].status == Failed || exists v :: v in s.threads && Sends(s.threads[v], e))
  }

  /** A retry of a failed entry looks for its message and does not find it. */
  predicate FindsNothing(s: State, step: Step) {
    && step.ReadMailbox? && step.ok && step.t in s.threads && s.threads[step.t].Looking? && s.threads[step.t].seen == Failed
    && s.threads[step.t].entry in s.entries && s.entries[s.threads[step.t].entry].notes !in s.mailbox
  }

  /** No retry of a failed entry finds nothing while another thread is about to send for that entry. */
  ghost predicate Exclusive(s: State, step: Step) {
    FindsNothing(s, step) && Live(s, s.threads[step.t].entry) ==>
      forall u :: u in s.threads && u != step.t ==> !Pending(s.threads[u], s.threads[step.t].entry)
  }

  ghost predicate Runs(s: State, steps: seq<Step>)
    decreases |steps|
  {
    steps == [] || (Enabled(s, steps[0]) && Runs(Apply(s, steps[0]), steps[1..]))
  }

  ghost predicate RunsExclusive(s: State, steps: seq<Step>)
    decreases |steps|
  {
    steps == [] || (Enabled(s, steps[0]) && Exclusive(s, steps[0]) && RunsExclusive(Apply(s, steps[0]), steps[1..]))
  }

  ghost function After(s: State, steps: seq<Step>): State
    requires Runs(s, steps)
    decreases |steps|
  {
    if steps == [] then s else After(Apply(s, steps[0]), steps[1..])
  }

  // ----- the invariant

  function Count(mailbox: seq<string>, notes: string): nat {
    multiset(mailbox)[notes]
  }

  ghost function Messages(s: State, e: string): nat
    requires e in s.entries
  {
    Count(s.mailbox, s.entries[e].notes)
  }

  /** What a thread's position says about the entry it works on. */
  ghost predicate PcFits(pc: Pc, entry: Entry, messages: nat) {
    match pc
    case SendingNow(_, _) => entry.status == Sending && messages == 0
    case Sent(_, _) => (entry.status == Sending || entry.status == Delivered) && messages == 1
    case Returned(_, _) => (entry.status == Sending || entry.status == Delivered) && messages == 1
    case Raised(_, _) => entry.status == Sending || entry.status == Delivered
    case Claiming(_, seen, retry) =>
      (seen == Stored || (seen == Failed && retry)) && (seen == Failed ==> entry.status != Stored && messages == 0)
    case Looking(_, seen) => (seen == Stored || seen == Failed) && (seen == Failed ==> entry.status != Stored)
    case Found(_, seen) => (seen == Stored || seen == Failed) && messages == 1
    case _ => true
  }

  ghost predicate ThreadFits(s: State, pc: Pc) {
    match pc
    case Recovering(rows) => rows <= s.entries.Keys
    case Reconciling(found) => forall e :: e in found ==> e in s.entries && Messages(s, e) >= 1
    case _ => pc.entry in s.entries && PcFits(pc, s.entries[pc.entry], Messages(s, pc.entry))
  }

  ghost predicate EntryFits(s: State, e: string)
    requires e in s.entries
  {
    && Messages(s, e) <= 1
    && (s.entries[e].status == Delivered ==> Messages(s, e) == 1)
    && (s.entries[e].status == Stored ==> Messages(s, e) == 0)
  }

  /** What holds of the entries and of each thread. */
  ghost predicate Fits(s: State) {
    && (forall e, f :: e in s.entries && f in s.entries && e != f ==> s.entries[e].notes != s.entries[f].notes)
    && (forall e :: e in s.entries ==> EntryFits(s, e))
    && (forall t :: t in s.threads ==> ThreadFits(s, s.threads[t]))
    && (forall t, u, e :: t in s.threads && u in s.threads && Sends(s.threads[t], e) && Sends(s.threads[u], e) ==> t == u)
  }

  /** At most one thread is about to send for an entry whose claim can still succeed. */
  ghost predicate Alone(s: State) {
    forall t, u, e :: t in s.threads && u in s.threads && Pending(s.threads[t], e) && Pending(s.threads[u], e) && Live(s, e) ==>
      t == u
  }

  ghost predicate Inv(s: State) {
    Fits(s) && Alone(s)
  }

  // ----- the three kinds of change

  lemma EndKeepsFits(s: State, t: nat)
    requires Fits(s)
    ensures Fits(End(s, t))
  {
    forall u | u in End(s, t).threads ensures ThreadFits(End(s, t), s.threads[u]) {
      assert ThreadFits(s, s.threads[u]);
    }
  }

  /** A thread may move to a position that fits, and start sending when no other thread is. */
  lemma GotoKeepsFits(s: State, t: nat, pc: Pc)
    requires Fits(s) && ThreadFits(s, pc)
    requires forall u, e :: u in s.threads && u != t && Sends(pc, e) ==> !Sends(s.threads[u], e)
    ensures Fits(Goto(s, t, pc))
  {
    var r := Goto(s, t, pc);
    forall u | u in r.threads ensures ThreadFits(r, r.threads[u]) {
      assert u != t ==> ThreadFits(s, s.threads[u]);
    }
  }

  predicate WorksOn(pc: Pc, e: string) {
    !pc.Recovering? && !pc.Reconciling? && pc.entry == e
  }

  /** An entry may change status when the threads working on it agree with the new one. */
  lemma StatusKeepsFits(s: State, e: string, to: Status)
    requires Fits(s) && e in s.entries
    requires to == Delivered ==> Messages(s, e) == 1
    requires to == Stored ==> Messages(s, e) == 0
    requires forall t :: t in s.threads && WorksOn(s.threads[t], e) ==>
      PcFits(s.threads[t], Entry(to, s.entries[e].notes), Messages(s, e))
    ensures Fits(s.(entries := s.entries[e := s.entries[e].(status := to)]))
  {
    var r := s.(entries := s.entries[e := s.entries[e].(status := to)]);
    assert forall x :: x in s.entries ==> r.entries[x].notes == s.entries[x].notes;
    forall x | x in r.entries ensures EntryFits(r, x) {
      assert EntryFits(s, x);
    }
    forall t | t in r.threads ensures ThreadFits(r, r.threads[t]) {
      ThreadStillFits(s, r, e, s.threads[t]);
    }
  }

  lemma ThreadStillFits(s: State, r: State, e: string, pc: Pc)
    requires ThreadFits(s, pc) && e in s.entries && r.mailbox == s.mailbox && r.entries.Keys == s.entries.Keys
    requires forall x :: x in s.entries ==> r.entries[x].notes == s.entries[x].notes && (x != e ==> r.entries[x] == s.entries[x])
    requires WorksOn(pc, e) ==> PcFits(pc, r.entries[e], Messages(s, e))
    ensures ThreadFits(r, pc)
  {
  }

  /** A message may arrive for an entry that is being sent, has none yet, and no other thread is sending. */
  lemma MessageKeepsFits(s: State, e: string)
    requires Fits(s) && e in s.entries && s.entries[e].status == Sending && Messages(s, e) == 0
    requires forall t :: t in s.threads ==> !Sends(s.threads[t], e) && !Pending(s.threads[t], e)
    ensures Fits(s.(mailbox := s.mailbox + [s.entries[e].notes]))
  {
    var r := s.(mailbox := s.mailbox + [s.entries[e].notes]);
    assert forall x :: x in s.entries ==> Messages(r, x) == Messages(s, x) + if x == e then 1 else 0;
    forall x | x in r.entries ensures EntryFits(r, x) {
      assert EntryFits(s, x);
    }
    forall t | t in r.threads ensures ThreadFits(r, r.threads[t]) {
      assert ThreadFits(s, s.threads[t]);
    }
  }

  // ----- every step keeps it

  lemma SubmitKeepsFits(s: State, step: Step)
    requires Fits(s) && step.Submit? && Enabled(s, step)
    ensures Fits(Apply(s, step))
  {
    var r := s.(entries := s.entries[step.entry := Entry(Stored, step.notes)]);
    forall x | x in r.entries ensures EntryFits(r, x) {
      assert x != step.entry ==> EntryFits(s, x);
    }
    forall u | u in r.threads ensures ThreadFits(r, r.threads[u]) {
      assert ThreadFits(s, s.threads[u]);
    }
    assert Fits(r);
    if !step.permission { GotoKeepsFits(r, step.t, Noting(step.entry)); }
  }

  /** A claim that succeeds finds no other thread sending the entry. */
  lemma ClaimFindsNoSender(s: State, t: nat, u: nat)
    requires Fits(s) && t in s.threads && s.threads[t].Claiming? && u in s.threads && u != t
    requires s.threads[t].entry in s.entries && s.entries[s.threads[t].entry].status == s.threads[t].seen
    ensures var e := s.threads[t].entry;
      && !Sends(s.threads[u], e)
      && (WorksOn(s.threads[u], e) ==> PcFits(s.threads[u], Entry(Sending, s.entries[e].notes), Messages(s, e)))
  {
    assert ThreadFits(s, s.threads[t]) && ThreadFits(s, s.threads[u]);
  }

  lemma EndThenGoto(threads: Threads, t: nat, pc: Pc)
    ensures (threads - {t})[t := pc] == threads[t := pc]
  {
  }

  lemma ClaimKeepsFits(s: State, t: nat)
    requires Fits(s) && Enabled(s, Claim(t))
    ensures Fits(Apply(s, Claim(t)))
  {
    var Claiming(e, seen, retry) := s.threads[t];
    assert ThreadFits(s, s.threads[t]) && EntryFits(s, e);
    var s1 := End(s, t);
    EndKeepsFits(s, t);
    if s.entries[e].status == seen {
      forall u | u in s1.threads
        ensures WorksOn(s1.threads[u], e) ==> PcFits(s1.threads[u], Entry(Sending, s.entries[e].notes), Messages(s1, e))
        ensures !Sends(s1.threads[u], e)
      {
        ClaimFindsNoSender(s, t, u);
      }
      StartSend(s1, t, e, retry);
      EndThenGoto(s.threads, t, SendingNow(e, retry));
    }
  }

  ghost function SetSending(s: State, e: string): State
    requires e in s.entries
  {
    s.(entries := s.entries[e := s.entries[e].(status := Sending)])
  }

  lemma StartSend(s: State, t: nat, e: string, retry: bool)
    requires Fits(s) && e in s.entries && Messages(s, e) == 0
    requires forall u :: u in s.threads ==>
      && (WorksOn(s.threads[u], e) ==> PcFits(s.threads[u], Entry(Sending, s.entries[e].notes), Messages(s, e)))
      && !Sends(s.threads[u], e)
    ensures Fits(Goto(SetSending(s, e), t, SendingNow(e, retry)))
  {
    StatusKeepsFits(s, e, Sending);
    GotoKeepsFits(SetSending(s, e), t, SendingNow(e, retry));
  }

  lemma SendIsAlone(s: State, t: nat, u: nat)
    requires Inv(s) && t in s.threads && s.threads[t].SendingNow? && s.threads[t].entry in s.entries
    requires u in s.threads && u != t
    ensures !Sends(s.threads[u], s.threads[t].entry) && !Pending(s.threads[u], s.threads[t].entry)
  {
    var e := s.threads[t].entry;
    assert Sends(s.threads[t], e) && Pending(s.threads[t], e) && Live(s, e);
  }

  lemma SendEffectKeepsFits(s: State, t: nat)
    requires Inv(s) && Enabled(s, SendEffect(t))
    ensures Fits(Apply(s, SendEffect(t)))
  {
    var SendingNow(e, retry) := s.threads[t];
    assert ThreadFits(s, s.threads[t]);
    EndKeepsFits(s, t);
    forall u | u in End(s, t).threads ensures !Sends(s.threads[u], e) && !Pending(s.threads[u], e) {
      SendIsAlone(s, t, u);
    }
    MessageArrives(End(s, t), t, e, retry);
    EndThenGoto(s.threads, t, Sent(e, retry));
  }

  lemma MessageArrives(s: State, t: nat, e: string, retry: bool)
    requires Fits(s) && e in s.entries && s.entries[e].status == Sending && Messages(s, e) == 0
    requires forall u :: u in s.threads ==> !Sends(s.threads[u], e) && !Pending(s.threads[u], e)
    ensures Fits(Goto(s.(mailbox := s.mailbox + [s.entries[e].notes]), t, Sent(e, retry)))
  {
    MessageKeepsFits(s, e);
    var r := s.(mailbox := s.mailbox + [s.entries[e].notes]);
    assert Messages(r, e) == 1;
    GotoKeepsFits(r, t, Sent(e, retry));
  }

  /** Moving on within a send keeps the thread the only one there. */
  lemma AdvanceKeepsFits(s: State, t: nat, pc: Pc)
    requires Fits(s) && t in s.threads && ThreadFits(s, pc)
    requires forall e :: Sends(pc, e) ==> Sends(s.threads[t], e)
    ensures Fits(Goto(s, t, pc))
  {
    GotoKeepsFits(s, t, pc);
  }

  /** Settling an outcome: `from` becomes `to` and the thread is done. */
  lemma SettleKeepsFits(s: State, t: nat, e: string, from: Status, to: Status)
    requires Fits(s) && t in s.threads && e in s.entries
    requires from != to && (to == Delivered || to == Failed)
    requires to == Delivered && s.entries[e].status == from ==> Messages(s, e) >= 1
    requires to == Failed && s.entries[e].status == from ==> from == Stored || Sends(s.threads[t], e)
    requires from == Failed ==> to == Delivered
    ensures Fits(End(s.(entries := Transition(s.entries, e, from, to)), t))
  {
    var s1 := End(s, t);
    EndKeepsFits(s, t);
    assert EntryFits(s, e);
    if s.entries[e].status == from {
      forall u | u in s1.threads && WorksOn(s1.threads[u], e)
        ensures PcFits(s1.threads[u], Entry(to, s.entries[e].notes), Messages(s, e))
      {
        assert ThreadFits(s, s.threads[u]);
        assert Sends(s.threads[u], e) && Sends(s.threads[t], e) ==> u == t;
      }
      StatusKeepsFits(s1, e, to);
    }
    assert End(s.(entries := Transition(s.entries, e, from, to)), t) == s1.(entries := Transition(s1.entries, e, from, to));
  }

  lemma RecoverOneKeepsFits(s: State, t: nat, e: string)
    requires Fits(s) && Enabled(s, RecoverOne(t, e))
    ensures Fits(Apply(s, RecoverOne(t, e)))
  {
    assert ThreadFits(s, s.threads[t]);
    SettleKeepsFits(s, t, e, Sending, Delivered);
    var s1 := End(s.(entries := Transition(s.entries, e, Sending, Delivered)), t);
    GotoKeepsFits(s1, t, Reconciling(s.threads[t].found - {e}));
    EndThenGoto(s.threads, t, Reconciling(s.threads[t].found - {e}));
  }

  lemma ReadKeepsFits(s: State, t: nat, ok: bool)
    requires Fits(s) && Enabled(s, ReadMailbox(t, ok))
    ensures Fits(Apply(s, ReadMailbox(t, ok)))
  {
    var Looking(e, seen) := s.threads[t];
    assert ThreadFits(s, s.threads[t]) && EntryFits(s, e);
    if !ok { EndKeepsFits(s, t); }
    else if s.entries[e].notes in s.mailbox { AdvanceKeepsFits(s, t, Found(e, seen)); }
    else { AdvanceKeepsFits(s, t, Claiming(e, seen, true)); }
  }

  lemma SendStepKeepsFits(s: State, step: Step)
    requires Fits(s) && Enabled(s, step)
    requires step.WriteNote? || step.MarkNoteFailed? || step.SendRaise? || step.SendReturn? || step.MarkDelivered? || step.MarkFailed?
    ensures Fits(Apply(s, step))
  {
    assert ThreadFits(s, s.threads[step.t]);
    var e := s.threads[step.t].entry;
    match step
    case WriteNote(t, ok) => AdvanceKeepsFits(s, t, if ok then Claiming(e, Stored, false) else NoteFailed(e));
    case MarkNoteFailed(t) => SettleKeepsFits(s, t, e, Stored, Failed);
    case SendRaise(t) => AdvanceKeepsFits(s, t, Raised(e, s.threads[t].retry));
    case SendReturn(t) => AdvanceKeepsFits(s, t, Returned(e, s.threads[t].retry));
    case MarkDelivered(t) => SettleKeepsFits(s, t, e, Sending, Delivered);
    case MarkFailed(t) => SettleKeepsFits(s, t, e, Sending, Failed);
  }

  lemma RecoverStepKeepsFits(s: State, step: Step)
    requires Fits(s) && Enabled(s, step)
    requires step.StartRecover? || step.RecoverRead? || step.RecoverOne? || step.Finish? || step.Crash?
    ensures Fits(Apply(s, step))
  {
    if step.t in s.threads { assert ThreadFits(s, s.threads[step.t]); }
    match step
    case StartRecover(t) =>
      if WithStatus(s.entries, Sending) != {} { GotoKeepsFits(s, t, Recovering(WithStatus(s.entries, Sending))); }
    case RecoverRead(t, ok) =>
      if ok { AdvanceKeepsFits(s, t, Apply(s, step).threads[t]); } else { EndKeepsFits(s, t); }
    case RecoverOne(t, e) => RecoverOneKeepsFits(s, t, e);
    case Finish(t) => EndKeepsFits(s, t);
    case Crash(t) => EndKeepsFits(s, t);
  }

  lemma RetryStepKeepsFits(s: State, step: Step)
    requires Fits(s) && Enabled(s, step)
    requires step.StartRetry? || step.ReadMailbox? || step.MarkReconciled?
    ensures Fits(Apply(s, step))
  {
    if step.t in s.threads { assert ThreadFits(s, s.threads[step.t]); }
    match step
    case StartRetry(t, e) =>
      var status := s.entries[e].status;
      if status == Failed || status == Stored { GotoKeepsFits(s, t, Looking(e, status)); }
    case ReadMailbox(t, ok) => ReadKeepsFits(s, t, ok);
    case MarkReconciled(t) => SettleKeepsFits(s, t, s.threads[t].entry, s.threads[t].seen, Delivered);
  }

  lemma StepKeepsFits(s: State, step: Step)
    requires Inv(s) && Enabled(s, step)
    ensures Fits(Apply(s, step))
  {
    if step.Submit? { SubmitKeepsFits(s, step); }
    else if step.Claim? { ClaimKeepsFits(s, step.t); }
    else if step.SendEffect? { SendEffectKeepsFits(s, step.t); }
    else if step.StartRetry? || step.ReadMailbox? || step.MarkReconciled? { RetryStepKeepsFits(s, step); }
    else if step.StartRecover? || step.RecoverRead? || step.RecoverOne? || step.Finish? || step.Crash? { RecoverStepKeepsFits(s, step); }
    else { SendStepKeepsFits(s, step); }
  }

  /** Only a claim makes a thread start sending. */
  lemma SendersComeFrom(s: State, step: Step, v: nat, e: string)
    requires Enabled(s, step) && !step.Claim? && v in Apply(s, step).threads && Sends(Apply(s, step).threads[v], e)
    ensures v in s.threads && Sends(s.threads[v], e)
  {
  }

  /** Only a lookup that finds nothing makes a thread set out to send for a failed entry, apart from the claim itself. */
  lemma PendingComesFrom(s: State, step: Step, v: nat, e: string)
    requires Enabled(s, step) && Fits(s) && !step.Claim? && v in Apply(s, step).threads && Pending(Apply(s, step).threads[v], e)
    ensures (v in s.threads && Pending(s.threads[v], e)) || (FindsNothing(s, step) && v == step.t && s.threads[v].entry == e)
  {
    if v == step.t && v in s.threads { assert ThreadFits(s, s.threads[v]); }
  }

  /** An entry some thread is to send for becomes live only by being so already. */
  lemma LiveComesFrom(s: State, step: Step, u: nat, e: string)
    requires Enabled(s, step) && Fits(s) && !step.Claim? && Live(Apply(s, step), e)
    requires u in s.threads && (Pending(s.threads[u], e) || (s.threads[u].Looking? && s.threads[u].seen == Failed && s.threads[u].entry == e))
    ensures Live(s, e)
  {
    var r := Apply(s, step);
    assert ThreadFits(s, s.threads[u]);
    if r.entries[e].status == Failed {
      if s.entries[e].status != Failed {
        assert step.MarkFailed?;
        assert Sends(s.threads[step.t], e);
      }
    } else {
      var v :| v in r.threads && Sends(r.threads[v], e);
      SendersComeFrom(s, step, v, e);
    }
  }

  lemma ClaimKeepsAlone(s: State, t: nat)
    requires Inv(s) && Enabled(s, Claim(t))
    ensures Alone(Apply(s, Claim(t)))
  {
    var r, e := Apply(s, Claim(t)), s.threads[t].entry;
    forall v, u, x | v in r.threads && u in r.threads && Pending(r.threads[v], x) && Pending(r.threads[u], x) && Live(r, x)
      ensures v == u
    {
      ClaimedAlone(s, t, v, x);
      ClaimedAlone(s, t, u, x);
    }
  }

  /** After a claim: the claimed entry is the claiming thread's alone, and nothing changed for the others. */
  lemma ClaimedAlone(s: State, t: nat, u: nat, x: string)
    requires Inv(s) && Enabled(s, Claim(t)) && u in Apply(s, Claim(t)).threads
    requires Pending(Apply(s, Claim(t)).threads[u], x) && Live(Apply(s, Claim(t)), x)
    ensures if x == s.threads[t].entry && s.entries[x].status == s.threads[t].seen then u == t
            else u in s.threads && Pending(s.threads[u], x) && Live(s, x)
  {
    var r, e := Apply(s, Claim(t)), s.threads[t].entry;
    assert ThreadFits(s, s.threads[t]);
    assert s.threads[t].seen == Failed ==> Pending(s.threads[t], e) && (s.entries[e].status == Failed ==> Live(s, e));
    if u != t && x == e && s.entries[e].status == s.threads[t].seen {
      ClaimFindsNoSender(s, t, u);
      assert false;
    } else if x != e || s.entries[e].status != s.threads[t].seen {
      if r.entries[x].status != Failed {
        var v :| v in r.threads && Sends(r.threads[v], x);
        assert v in s.threads && Sends(s.threads[v], x);
      }
    }
  }

  lemma StepKeepsAlone(s: State, step: Step)
    requires Inv(s) && Enabled(s, step) && Exclusive(s, step) && !step.Claim?
    ensures Alone(Apply(s, step))
  {
    var r := Apply(s, step);
    forall t, u, e | t in r.threads && u in r.threads && Pending(r.threads[t], e) && Pending(r.threads[u], e) && Live(r, e)
      ensures t == u
    {
      PendingComesFrom(s, step, t, e);
      PendingComesFrom(s, step, u, e);
      LiveComesFrom(s, step, t, e);
    }
  }

  /** The invariant holds after every step that respects the exclusion. */
  lemma StepKeepsInv(s: State, step: Step)
    requires Inv(s) && Enabled(s, step) && Exclusive(s, step)
    ensures Inv(Apply(s, step))
  {
    StepKeepsFits(s, step);
    if step.Claim? { ClaimKeepsAlone(s, step.t); } else { StepKeepsAlone(s, step); }
  }

  // ----- every history

  const EMPTY := State(map[], [], map[])

  /**
   In every history from the empty store, with sends that raise after taking effect and crashes
   anywhere, the mailbox holds at most one message per entry, and exactly one once it is delivered.
   */
  lemma {:induction false} DeliveredAtMostOnce(s: State, steps: seq<Step>)
    requires Inv(s) && RunsExclusive(s, steps)
    ensures Runs(s, steps) && Inv(After(s, steps))
    ensures var t := After(s, steps);
      forall e :: e in t.entries ==>
        Messages(t, e) <= 1 && (t.entries[e].status == Delivered ==> Messages(t, e) == 1)
    decreases |steps|
  {
    if steps != [] {
      StepKeepsInv(s, steps[0]);
      DeliveredAtMostOnce(Apply(s, steps[0]), steps[1..]);
    } else {
      assert forall e :: e in s.entries ==> EntryFits(s, e);
    }
  }

  lemma EmptyInv()
    ensures Inv(EMPTY)
  {
  }

  /** Delivered is terminal in every history, overlapping retries included. */
  lemma {:induction false} DeliveredIsTerminal(s: State, steps: seq<Step>, e: string)
    requires Runs(s, steps) && SettledExpectations(s)
    requires e in s.entries && s.entries[e].status == Delivered
    ensures e in After(s, steps).entries && After(s, steps).entries[e].status == Delivered
    decreases |steps|
  {
    if steps != [] {
      StepKeepsExpectations(s, steps[0]);
      DeliveredIsTerminal(Apply(s, steps[0]), steps[1..], e);
    }
  }

  /** No compare-and-set in flight expects `Delivered`. */
  ghost predicate SettledExpectations(s: State) {
    forall t :: t in s.threads ==> match s.threads[t]
      case Claiming(_, seen, _) => seen == Stored || seen == Failed
      case Looking(_, seen) => seen == Stored || seen == Failed
      case Found(_, seen) => seen == Stored || seen == Failed
      case _ => true
  }

  lemma StepKeepsExpectations(s: State, step: Step)
    requires Enabled(s, step) && SettledExpectations(s)
    ensures SettledExpectations(Apply(s, step))
  {
  }

  // ----- overlapping retries

  lemma RunsFirst(s: State, x: Step, rest: seq<Step>)
    requires Enabled(s, x) && Runs(Apply(s, x), rest)
    ensures Runs(s, [x] + rest) && After(s, [x] + rest) == After(Apply(s, x), rest)
  {
    assert ([x] + rest)[1..] == rest;
  }

  lemma ConsAppend<T>(a: seq<T>, b: seq<T>)
    requires a != []
    ensures a + b == [a[0]] + (a[1..] + b)
  {
  }

  lemma {:induction false} RunsAppend(s: State, a: seq<Step>, b: seq<Step>)
    requires Runs(s, a) && Runs(After(s, a), b)
    ensures Runs(s, a + b) && After(s, a + b) == After(After(s, a), b)
    decreases |a|
  {
    if a == [] {
      assert a + b == b;
    } else {
      RunsAppend(Apply(s, a[0]), a[1..], b);
      ConsAppend(a, b);
      RunsFirst(s, a[0], a[1..] + b);
    }
  }

  lemma {:induction false} ExclusiveRuns(s: State, steps: seq<Step>)
    requires RunsExclusive(s, steps)
    ensures Runs(s, steps)
    decreases |steps|
  {
    if steps != [] { ExclusiveRuns(Apply(s, steps[0]), steps[1..]); }
  }

  /** From here a run that respects the exclusion puts a second message for `e` in the mailbox. */
  ghost predicate CanSendTwice(s: State, e: string) {
    exists rest :: RunsExclusive(s, rest) && Runs(s, rest) && e in After(s, rest).entries && Messages(After(s, rest), e) > 1
  }

  lemma StepBack(s: State, x: Step, e: string)
    requires Enabled(s, x) && !x.ReadMailbox? && CanSendTwice(Apply(s, x), e)
    ensures CanSendTwice(s, e)
  {
    var s1 := Apply(s, x);
    var rest :| RunsExclusive(s1, rest) && Runs(s1, rest) && e in After(s1, rest).entries && Messages(After(s1, rest), e) > 1;
    RunsFirst(s, x, rest);
    assert ([x] + rest)[1..] == rest;
    assert RunsExclusive(s, [x] + rest);
  }

  lemma TwiceAlready(s: State, e: string)
    requires e in s.entries && Messages(s, e) > 1
    ensures CanSendTwice(s, e)
  {
    assert RunsExclusive(s, []) && Runs(s, []) && After(s, []) == s;
  }

  lemma MessageCounts(s: State, t: nat)
    requires Enabled(s, SendEffect(t))
    ensures var e := s.threads[t].entry; Messages(Apply(s, SendEffect(t)), e) == Messages(s, e) + 1
  {
  }

  /** A claim that saw the entry failed sends a second message once the entry is failed with one in the mailbox. */
  lemma ClaimsAgain(s: State, t: nat)
    requires Enabled(s, Claim(t)) && s.threads[t].seen == Failed
    requires var e := s.threads[t].entry; s.entries[e].status == Failed && Messages(s, e) == 1
    ensures CanSendTwice(s, s.threads[t].entry)
  {
    var e := s.threads[t].entry;
    var s1 := Apply(s, Claim(t));
    assert s1.threads[t] == SendingNow(e, s.threads[t].retry) && Enabled(s1, SendEffect(t));
    MessageCounts(s1, t);
    TwiceAlready(Apply(s1, SendEffect(t)), e);
    StepBack(s1, SendEffect(t), e);
    StepBack(s, Claim(t), e);
  }

  /** A raised send fails its entry, and the claim that waits for that sends again. */
  lemma RaisedThenClaims(s: State, t: nat, u: nat)
    requires Enabled(s, MarkFailed(u)) && t != u && Known(s, t) && s.threads[t].Claiming? && s.threads[t].seen == Failed
    requires var e := s.threads[t].entry; s.threads[u].entry == e && s.entries[e].status == Sending && Messages(s, e) == 1
    ensures CanSendTwice(s, s.threads[t].entry)
  {
    var s1 := Apply(s, MarkFailed(u));
    assert s1.threads[t] == s.threads[t];
    ClaimsAgain(s1, t);
    StepBack(s, MarkFailed(u), s.threads[t].entry);
  }

  lemma SendThenClaims(s: State, t: nat, u: nat)
    requires Enabled(s, SendEffect(u)) && t != u && Known(s, t) && s.threads[t].Claiming? && s.threads[t].seen == Failed
    requires var e := s.threads[t].entry; s.threads[u].entry == e && s.entries[e].status == Sending && Messages(s, e) == 0
    ensures CanSendTwice(s, s.threads[t].entry)
  {
    var e := s.threads[t].entry;
    MessageCounts(s, u);
    var s1 := Apply(s, SendEffect(u));
    var s2 := Apply(s1, SendRaise(u));
    RaisedThenClaims(s2, t, u);
    StepBack(s1, SendRaise(u), e);
    StepBack(s, SendEffect(u), e);
  }

  /** Two claims that saw the entry failed, and no message yet. */
  lemma BothClaim(s: State, t: nat, u: nat)
    requires Known(s, t) && Known(s, u) && t != u && s.threads[t].Claiming? && s.threads[u].Claiming?
    requires s.threads[t].seen == Failed && s.threads[u].seen == Failed && s.threads[t].entry == s.threads[u].entry
    requires var e := s.threads[t].entry; s.entries[e].status == Failed && Messages(s, e) == 0
    ensures CanSendTwice(s, s.threads[t].entry)
  {
    var s1 := Apply(s, Claim(u));
    assert s1.threads[t] == s.threads[t] && Enabled(s1, SendEffect(u));
    SendThenClaims(s1, t, u);
    StepBack(s, Claim(u), s.threads[t].entry);
  }

  /** A third thread whose send raised without effect fails the entry first. */
  lemma RaisedThenBothClaim(s: State, t: nat, u: nat, v: nat)
    requires Known(s, t) && Known(s, u) && t != u && s.threads[t].Claiming? && s.threads[u].Claiming?
    requires s.threads[t].seen == Failed && s.threads[u].seen == Failed && s.threads[t].entry == s.threads[u].entry
    requires Enabled(s, MarkFailed(v)) && s.threads[v].entry == s.threads[t].entry
    requires var e := s.threads[t].entry; s.entries[e].status == Sending && Messages(s, e) == 0
    ensures CanSendTwice(s, s.threads[t].entry)
  {
    var s1 := Apply(s, MarkFailed(v));
    BothClaim(s1, t, u);
    StepBack(s, MarkFailed(v), s.threads[t].entry);
  }

  /** Two claims that saw the entry failed, and a third thread still sending. */
  lemma SenderThenClaims(s: State, r: State, t: nat, u: nat, v: nat)
    requires Fits(s) && r.entries == s.entries && r.mailbox == s.mailbox
    requires Known(r, t) && Known(r, u) && t != u && r.threads[t].Claiming? && r.threads[u].Claiming?
    requires r.threads[t].seen == Failed && r.threads[u].seen == Failed && r.threads[t].entry == r.threads[u].entry
    requires Messages(r, r.threads[t].entry) == 0
    requires v in s.threads && v in r.threads && r.threads[v] == s.threads[v] && Sends(r.threads[v], r.threads[t].entry)
    ensures CanSendTwice(r, r.threads[t].entry)
  {
    assert ThreadFits(s, s.threads[v]) && EntryFits(s, r.threads[t].entry);
    if r.threads[v].SendingNow? { SendThenClaims(r, t, v); } else { RaisedThenBothClaim(r, t, u, v); }
  }

  /** A lookup the exclusion forbids opens the way to a second message. */
  lemma ForbiddenLookup(s: State, step: Step)
    requires Inv(s) && Enabled(s, step) && !Exclusive(s, step)
    ensures CanSendTwice(Apply(s, step), s.threads[step.t].entry)
  {
    var t, e := step.t, s.threads[step.t].entry;
    var u :| u in s.threads && u != t && Pending(s.threads[u], e);
    assert ThreadFits(s, s.threads[u]) && EntryFits(s, e);
    var r := Apply(s, step);
    assert r.threads[t] == Claiming(e, Failed, true) && r.threads[u] == s.threads[u];
    assert Messages(r, e) == 0;
    if s.threads[u].SendingNow? {
      SendThenClaims(r, t, u);
    } else if s.entries[e].status == Failed {
      BothClaim(r, t, u);
    } else {
      var v :| v in s.threads && Sends(s.threads[v], e);
      SenderThenClaims(s, r, t, u, v);
    }
  }

  /**
   The exclusion is exact: in a state the invariant allows, a step respects it if and only if no run from there
   that goes on respecting it ever puts a second message for an entry in the mailbox.
   */
  lemma ExclusionIsExact(s: State, step: Step)
    requires Inv(s) && Enabled(s, step)
    ensures Exclusive(s, step) <==> forall e :: !CanSendTwice(Apply(s, step), e)
  {
    if Exclusive(s, step) {
      StepKeepsInv(s, step);
      var r := Apply(s, step);
      forall e ensures !CanSendTwice(r, e) {
        if CanSendTwice(r, e) {
          var rest :| RunsExclusive(r, rest) && Runs(r, rest) && e in After(r, rest).entries && Messages(After(r, rest), e) > 1;
          DeliveredAtMostOnce(r, rest);
          assert false;
        }
      }
    } else {
      ForbiddenLookup(s, step);
    }
  }

  lemma RunsThree(s: State, x: Step, y: Step, z: Step, s1: State, s2: State, s3: State)
    requires Enabled(s, x) && Apply(s, x) == s1 && Enabled(s1, y) && Apply(s1, y) == s2 && Enabled(s2, z) && Apply(s2, z) == s3
    ensures Runs(s, [x, y, z]) && After(s, [x, y, z]) == s3
  {
    RunsFirst(s2, z, []);
    RunsFirst(s1, y, [z]);
    RunsFirst(s, x, [y, z]);
    assert [x] + [y, z] == [x, y, z] && [y] + [z] == [y, z] && [z] + [] == [z];
  }

  const FAILED_ONCE := State(map["e" := Entry(Failed, "n")], [], map[])
  const ONE_LOOKED := FAILED_ONCE.(threads := map[1 := Claiming("e", Failed, true), 2 := Looking("e", Failed)])
  const FAIL_ONCE := [Submit(0, "e", "n", false), WriteNote(0, false), MarkNoteFailed(0)]
  const LOOK_ONCE := [StartRetry(1, "e"), StartRetry(2, "e"), ReadMailbox(1, true)]

  lemma NoteFails()
    ensures Runs(EMPTY, FAIL_ONCE) && After(EMPTY, FAIL_ONCE) == FAILED_ONCE
  {
    var s1 := State(map["e" := Entry(Stored, "n")], [], map[0 := Noting("e")]);
    RunsThree(EMPTY, Submit(0, "e", "n", false), WriteNote(0, false), MarkNoteFailed(0), s1, s1.(threads := map[0 := NoteFailed("e")]), FAILED_ONCE);
  }

  lemma OneRetryLooks()
    ensures Runs(FAILED_ONCE, LOOK_ONCE) && After(FAILED_ONCE, LOOK_ONCE) == ONE_LOOKED
  {
    var s1 := FAILED_ONCE.(threads := map[1 := Looking("e", Failed)]);
    RunsThree(FAILED_ONCE, StartRetry(1, "e"), StartRetry(2, "e"), ReadMailbox(1, true),
              s1, FAILED_ONCE.(threads := map[1 := Looking("e", Failed), 2 := Looking("e", Failed)]), ONE_LOOKED);
  }

  lemma OneLookedInv()
    ensures Inv(ONE_LOOKED)
  {
    assert forall t :: t in ONE_LOOKED.threads ==> t == 1 || t == 2;
    assert Messages(ONE_LOOKED, "e") == 0;
  }

  /** Some run from here puts a second message for `e` in the mailbox. */
  ghost predicate SendsTwice(s: State, e: string) {
    exists steps :: Runs(s, steps) && e in After(s, steps).entries && Messages(After(s, steps), e) > 1
  }

  lemma SendsTwiceFrom(s: State, steps: seq<Step>, e: string)
    requires Runs(s, steps) && SendsTwice(After(s, steps), e)
    ensures SendsTwice(s, e)
  {
    var t := After(s, steps);
    var rest :| Runs(t, rest) && e in After(t, rest).entries && Messages(After(t, rest), e) > 1;
    RunsAppend(s, steps, rest);
  }

  lemma OneLookedSendsTwice()
    ensures SendsTwice(ONE_LOOKED, "e")
  {
    OneLookedInv();
    var look := ReadMailbox(2, true);
    assert Live(ONE_LOOKED, "e") && Pending(ONE_LOOKED.threads[1], "e");
    ForbiddenLookup(ONE_LOOKED, look);
    assert SendsTwice(Apply(ONE_LOOKED, look), "e");
    assert Runs(ONE_LOOKED, [look] + []) && After(ONE_LOOKED, [look] + []) == Apply(ONE_LOOKED, look) by {
      RunsFirst(ONE_LOOKED, look, []);
    }
    SendsTwiceFrom(ONE_LOOKED, [look] + [], "e");
  }

  /**
   The exclusion matters: with two retries of one failed entry that both look before either claims,
   there is a history from the empty store that puts two messages for the entry in the mailbox.
   */
  lemma OverlappingRetriesSendTwice()
    ensures SendsTwice(EMPTY, "e")
  {
    OneLookedSendsTwice();
    OneRetryLooks();
    SendsTwiceFrom(FAILED_ONCE, LOOK_ONCE, "e");
    NoteFails();
    SendsTwiceFrom(EMPTY, FAIL_ONCE, "e");
  }

  // ----- retries one after another

  /** The thread runs a retry that read the entry as failed, up to its claim. */
  predicate RetriesFailed(pc: Pc, e: string) {
    (pc.Looking? || pc.Found? || pc.Claiming?) && pc.entry == e && pc.seen == Failed
  }

  /** No retry of a failed entry starts before the claim of another one that read it as failed. */
  ghost predicate Serial(s: State, step: Step) {
    step.StartRetry? && step.entry in s.entries && s.entries[step.entry].status == Failed ==>
      forall u :: u in s.threads ==> !RetriesFailed(s.threads[u], step.entry)
  }

  ghost predicate RunsSerial(s: State, steps: seq<Step>)
    decreases |steps|
  {
    steps == [] || (Enabled(s, steps[0]) && Serial(s, steps[0]) && RunsSerial(Apply(s, steps[0]), steps[1..]))
  }

  ghost predicate OneRetry(s: State) {
    && (forall t, e :: t in s.threads && RetriesFailed(s.threads[t], e) ==> e in s.entries && s.entries[e].status == Failed)
    && (forall t, u, e :: t in s.threads && u in s.threads && RetriesFailed(s.threads[t], e) && RetriesFailed(s.threads[u], e) ==>
          t == u)
  }

  lemma SerialIsExclusive(s: State, step: Step)
    requires Inv(s) && OneRetry(s) && Enabled(s, step)
    ensures Exclusive(s, step)
  {
    if FindsNothing(s, step) {
      var t, e := step.t, s.threads[step.t].entry;
      assert RetriesFailed(s.threads[t], e);
      forall u | u in s.threads && u != t ensures !Pending(s.threads[u], e) {
        assert ThreadFits(s, s.threads[u]);
      }
    }
  }

  lemma RetryComesFrom(s: State, step: Step, t: nat, e: string)
    requires Fits(s) && Enabled(s, step) && t in Apply(s, step).threads && RetriesFailed(Apply(s, step).threads[t], e)
    ensures (t in s.threads && RetriesFailed(s.threads[t], e))
         || (step.StartRetry? && step.t == t && step.entry == e && s.entries[e].status == Failed)
  {
  }

  /** Only the retry that read it as failed moves an entry on from there, and ends or sends. */
  lemma LeavesFailed(s: State, step: Step, e: string)
    requires Enabled(s, step) && e in s.entries && s.entries[e].status == Failed
    requires Apply(s, step).entries[e].status != Failed
    ensures step.t in s.threads && RetriesFailed(s.threads[step.t], e)
    ensures step.t in Apply(s, step).threads ==> Apply(s, step).threads[step.t].SendingNow?
  {
  }

  lemma StillFailed(s: State, step: Step, t: nat, e: string)
    requires Fits(s) && OneRetry(s) && Enabled(s, step) && t in s.threads && RetriesFailed(s.threads[t], e)
    requires t in Apply(s, step).threads && RetriesFailed(Apply(s, step).threads[t], e)
    ensures e in Apply(s, step).entries && Apply(s, step).entries[e].status == Failed
  {
    if Apply(s, step).entries[e].status != Failed { LeavesFailed(s, step, e); }
  }

  lemma SerialKeepsOneRetry(s: State, step: Step)
    requires Inv(s) && OneRetry(s) && Enabled(s, step) && Serial(s, step)
    ensures OneRetry(Apply(s, step))
  {
    var r := Apply(s, step);
    forall t, e | t in r.threads && RetriesFailed(r.threads[t], e) ensures e in r.entries && r.entries[e].status == Failed {
      RetryComesFrom(s, step, t, e);
      if t in s.threads && RetriesFailed(s.threads[t], e) { StillFailed(s, step, t, e); }
    }
    forall t, u, e | t in r.threads && u in r.threads && RetriesFailed(r.threads[t], e) && RetriesFailed(r.threads[u], e)
      ensures t == u
    {
      RetryComesFrom(s, step, t, e);
      RetryComesFrom(s, step, u, e);
    }
  }

  /** Retries of a failed entry that never overlap respect the exclusion, in every history. */
  lemma {:induction false} SerialRetriesSuffice(s: State, steps: seq<Step>)
    requires Inv(s) && OneRetry(s) && RunsSerial(s, steps)
    ensures RunsExclusive(s, steps)
    decreases |steps|
  {
    if steps != [] {
      SerialIsExclusive(s, steps[0]);
      StepKeepsInv(s, steps[0]);
      SerialKeepsOneRetry(s, steps[0]);
      SerialRetriesSuffice(Apply(s, steps[0]), steps[1..]);
    }
  }

  // ----- the methods

  lemma {:induction false} RunsSnoc(s: State, steps: seq<Step>, x: Step)
    requires Runs(s, steps) && Enabled(After(s, steps), x)
    ensures Runs(s, steps + [x]) && After(s, steps + [x]) == Apply(After(s, steps), x)
    decreases |steps|
  {
    if steps == [] {
      assert steps + [x] == [x] + [];
      RunsFirst(s, x, []);
    } else {
      RunsSnoc(Apply(s, steps[0]), steps[1..], x);
      assert steps + [x] == [steps[0]] + (steps[1..] + [x]);
      RunsFirst(s, steps[0], steps[1..] + [x]);
    }
  }

  lemma ThreadGone(threads: Threads, t: nat, pc: Pc)
    ensures threads[t := pc] - {t} == threads - {t}
    ensures t !in threads ==> threads - {t} == threads
  {
  }

  /** What a send does: return, or raise before or after the message reached the mailbox. */
  datatype SendOutcome = Returns | RaisesBefore | RaisesAfter

  /**
   The repository and the mailbox, with the methods run by one thread without interruption. `log`
   records the steps taken: every method is a history of the step machine above.
   */
  class Flow {
    var entries: map<string, Entry>
    var mailbox: seq<string>
    ghost var threads: Threads
    ghost var log: seq<Step>
    ghost const start: State

    ghost function Model(): State
      reads this
    {
      State(entries, mailbox, threads)
    }

    /** The fields are what the logged steps make of the start. */
    ghost predicate Tracks()
      reads this
    {
      Runs(start, log) && After(start, log) == Model()
    }

    constructor ()
      ensures Tracks() && start == EMPTY && log == []
    {
      entries, mailbox, threads, log, start := map[], [], map[], [], EMPTY;
    }

    /** The fields have just taken `step` from the state `before`. */
    ghost method Log(before: State, step: Step)
      requires Runs(start, log) && After(start, log) == before
      requires Enabled(before, step) && Model() == Apply(before, step)
      modifies this`log
      ensures Tracks() && log == old(log) + [step]
    {
      RunsSnoc(start, log, step);
      log := log + [step];
    }

    /** The send, and the compare-and-set that settles it: an entry another thread has settled keeps its status. */
    method SendEntry(t: nat, e: string, outcome: SendOutcome, ghost retry: bool) returns (status: Status)
      requires Tracks() && e in entries && t in threads && threads[t] == SendingNow(e, retry)
      modifies this
      ensures Tracks() && threads == old(threads) - {t}
      ensures entries == Transition(old(entries), e, Sending, if outcome.Returns? then Delivered else Failed)
      ensures status == if outcome.Returns? then entries[e].status else Failed
      ensures mailbox == old(mailbox) + (if outcome.RaisesBefore? then [] else [entries[e].notes])
    {
      if !outcome.RaisesBefore? {
        ghost var before := Model();
        mailbox, threads := mailbox + [entries[e].notes], threads[t := Sent(e, retry)];
        Log(before, SendEffect(t));
      }
      if outcome.Returns? {
        Return(t, e, retry);
        status := entries[e].status;
      } else {
        Raise(t, e, retry);
        status := Failed;
      }
    }

    method Return(t: nat, e: string, ghost retry: bool)
      requires Tracks() && e in entries && t in threads && threads[t] == Sent(e, retry)
      modifies this`entries, this`threads, this`log
      ensures Tracks() && threads == old(threads) - {t}
      ensures entries == Transition(old(entries), e, Sending, Delivered)
    {
      ghost var before := Model();
      threads := threads[t := Returned(e, retry)];
      Log(before, SendReturn(t));
      before := Model();
      entries, threads := Transition(entries, e, Sending, Delivered), threads - {t};
      Log(before, MarkDelivered(t));
    }

    method Raise(t: nat, e: string, ghost retry: bool)
      requires Tracks() && e in entries && t in threads && (threads[t] == Sent(e, retry) || threads[t] == SendingNow(e, retry))
      modifies this`entries, this`threads, this`log
      ensures Tracks() && threads == old(threads) - {t}
      ensures entries == Transition(old(entries), e, Sending, Failed)
    {
      ghost var before := Model();
      threads := threads[t := Raised(e, retry)];
      Log(before, SendRaise(t));
      before := Model();
      entries, threads := Transition(entries, e, Sending, Failed), threads - {t};
      Log(before, MarkFailed(t));
    }

    /** Sends only if the entry still has the status it was read with. */
    method DeliverStored(t: nat, e: string, seen: Status, outcome: SendOutcome, ghost retry: bool) returns (status: Status)
      requires Tracks() && e in entries && t in threads && threads[t] == Claiming(e, seen, retry)
      modifies this
      ensures Tracks() && threads == old(threads) - {t}
      ensures entries == old(entries)[e := old(entries)[e].(status := status)]
      ensures var was := old(entries)[e].status;
        if was != seen then status == was && mailbox == old(mailbox)
        else status == (if outcome.Returns? then Delivered else Failed)
             && mailbox == old(mailbox) + (if outcome.RaisesBefore? then [] else [entries[e].notes])
    {
      ghost var before := Model();
      if entries[e].status != seen {
        threads := threads - {t};
        Log(before, Claim(t));
        return entries[e].status;
      }
      entries, threads := entries[e := entries[e].(status := Sending)], threads[t := SendingNow(e, retry)];
      Log(before, Claim(t));
      status := SendEntry(t, e, outcome, retry);
    }

    /** A new answer: stored, its note written, then sent unless it answers a permission request. */
    method SubmitAnswer(t: nat, e: string, notes: string, permission: bool, noteOk: bool, outcome: SendOutcome)
      returns (status: Status)
      requires Tracks() && Enabled(Model(), Submit(t, e, notes, permission))
      modifies this
      ensures Tracks() && threads == old(threads)
      ensures entries == old(entries)[e := Entry(status, notes)]
      ensures status == if permission then Stored else if !noteOk || !outcome.Returns? then Failed else Delivered
      ensures mailbox == old(mailbox) + (if permission || !noteOk || outcome.RaisesBefore? then [] else [notes])
    {
      ghost var before := Model();
      entries := entries[e := Entry(Stored, notes)];
      if permission {
        Log(before, Submit(t, e, notes, permission));
        return Stored;
      }
      threads := threads[t := Noting(e)];
      Log(before, Submit(t, e, notes, permission));
      status := DeliverInitial(t, e, noteOk, outcome);
    }

    method DeliverInitial(t: nat, e: string, noteOk: bool, outcome: SendOutcome) returns (status: Status)
      requires Tracks() && e in entries && entries[e].status == Stored && t in threads && threads[t] == Noting(e)
      modifies this
      ensures Tracks() && threads == old(threads) - {t}
      ensures entries == old(entries)[e := old(entries)[e].(status := status)]
      ensures status == if !noteOk || !outcome.Returns? then Failed else Delivered
      ensures mailbox == old(mailbox) + (if !noteOk || outcome.RaisesBefore? then [] else [entries[e].notes])
    {
      ghost var before := Model();
      if !noteOk {
        threads := threads[t := NoteFailed(e)];
        Log(before, WriteNote(t, false));
        before := Model();
        entries, threads := entries[e := entries[e].(status := Failed)], threads - {t};
        Log(before, MarkNoteFailed(t));
        return Failed;
      }
      threads := threads[t := Claiming(e, Stored, false)];
      Log(before, WriteNote(t, true));
      status := DeliverStored(t, e, Stored, outcome, false);
    }

    /** Looks the entry up in the mailbox before it sends again. */
    method Retry(t: nat, e: string, readOk: bool, outcome: SendOutcome) returns (status: Status)
      requires Tracks() && e in entries && t !in threads
      modifies this
      ensures Tracks() && threads == old(threads)
      ensures entries == old(entries)[e := old(entries)[e].(status := status)]
      ensures var (was, found) := (old(entries)[e].status, old(entries)[e].notes in old(mailbox));
        if (was != Failed && was != Stored) || !readOk then status == was && mailbox == old(mailbox)
        else if found then status == Delivered && mailbox == old(mailbox)
        else status == (if outcome.Returns? then Delivered else Failed)
             && mailbox == old(mailbox) + (if outcome.RaisesBefore? then [] else [old(entries)[e].notes])
    {
      ghost var before := Model();
      var seen := entries[e].status;
      if seen != Failed && seen != Stored {
        Log(before, StartRetry(t, e));
        return seen;
      }
      threads := threads[t := Looking(e, seen)];
      Log(before, StartRetry(t, e));
      status := LookThenSend(t, e, seen, readOk, outcome);
    }

    method LookThenSend(t: nat, e: string, seen: Status, readOk: bool, outcome: SendOutcome) returns (status: Status)
      requires Tracks() && e in entries && t in threads && threads[t] == Looking(e, seen)
      modifies this
      ensures Tracks() && threads == old(threads) - {t}
      ensures var (was, found) := (old(entries)[e].status, old(entries)[e].notes in old(mailbox));
        if !readOk then status == seen && entries == old(entries) && mailbox == old(mailbox)
        else if was != seen then status == was && entries == old(entries) && mailbox == old(mailbox)
        else entries == old(entries)[e := old(entries)[e].(status := status)]
             && if found then status == Delivered && mailbox == old(mailbox)
                else status == (if outcome.Returns? then Delivered else Failed)
                     && mailbox == old(mailbox) + (if outcome.RaisesBefore? then [] else [entries[e].notes])
    {
      ghost var before := Model();
      if !readOk {
        threads := threads - {t};
        Log(before, ReadMailbox(t, false));
        return seen;
      }
      if entries[e].notes in mailbox {
        threads := threads[t := Found(e, seen)];
        Log(before, ReadMailbox(t, true));
        Reconcile(t, e, seen);
        return entries[e].status;
      }
      threads := threads[t := Claiming(e, seen, true)];
      Log(before, ReadMailbox(t, true));
      status := DeliverStored(t, e, seen, outcome, true);
    }

    method Reconcile(t: nat, e: string, seen: Status)
      requires Tracks() && e in entries && t in threads && threads[t] == Found(e, seen)
      modifies this`entries, this`threads, this`log
      ensures Tracks() && threads == old(threads) - {t}
      ensures entries == Transition(old(entries), e, seen, Delivered)
    {
      ghost var before := Model();
      entries, threads := Transition(entries, e, seen, Delivered), threads - {t};
      Log(before, MarkReconciled(t));
    }

    /** Settles entries left in sending whose message is in the mailbox; never sends. */
    method RecoverSending(t: nat, readOk: bool)
      requires Tracks() && t !in threads
      modifies this
      ensures Tracks() && threads == old(threads) && mailbox == old(mailbox)
      ensures entries.Keys == old(entries).Keys
      ensures forall e :: e in entries ==>
                entries[e] == (if readOk && old(entries)[e].status == Sending && old(entries)[e].notes in old(mailbox)
                               then old(entries)[e].(status := Delivered) else old(entries)[e])
    {
      ghost var before := Model();
      var rows := WithStatus(entries, Sending);
      assert forall e :: e in entries && entries[e].status == Sending ==> e in rows;
      if rows == {} {
        Log(before, StartRecover(t));
        return;
      }
      threads := threads[t := Recovering(rows)];
      Log(before, StartRecover(t));
      var found := ReadForRecovery(t, rows, readOk);
      if readOk {
        ReconcileAll(t, found);
      }
      ThreadGone(old(threads), t, Recovering(rows));
      ThreadGone(old(threads), t, Reconciling(found));
    }

    method ReadForRecovery(t: nat, rows: set<string>, readOk: bool) returns (found: set<string>)
      requires Tracks() && t in threads && threads[t] == Recovering(rows)
      modifies this`threads, this`log
      ensures found == set e | e in rows && e in entries && entries[e].notes in mailbox
      ensures Tracks() && threads == if readOk then old(threads)[t := Reconciling(found)] else old(threads) - {t}
    {
      ghost var before := Model();
      found := set e | e in rows && e in entries && entries[e].notes in mailbox;
      threads := if readOk then threads[t := Reconciling(found)] else threads - {t};
      Log(before, RecoverRead(t, readOk));
    }

    method ReconcileAll(t: nat, found: set<string>)
      requires Tracks() && t in threads && threads[t] == Reconciling(found)
      requires found <= entries.Keys
      modifies this`entries, this`threads, this`log
      ensures Tracks() && threads == old(threads) - {t} && entries.Keys == old(entries).Keys
      ensures forall e :: e in entries ==>
                entries[e] == (if e in found && old(entries)[e].status == Sending then old(entries)[e].(status := Delivered)
                               else old(entries)[e])
    {
      var todo := found;
      while todo != {}
        invariant Tracks() && entries.Keys == old(entries).Keys && todo <= found
        invariant t in threads && threads[t] == Reconciling(todo) && threads - {t} == old(threads) - {t}
        invariant forall e :: e in entries ==>
                    entries[e] == (if e in found - todo && old(entries)[e].status == Sending
                                   then old(entries)[e].(status := Delivered) else old(entries)[e])
        decreases todo
      {
        var e :| e in todo;
        todo := todo - {e};
        ThreadGone(threads, t, Reconciling(todo));
        ReconcileOne(t, e, todo + {e});
        assert todo + {e} - {e} == todo;
      }
      ghost var before := Model();
      threads := threads - {t};
      Log(before, Finish(t));
    }

    method ReconcileOne(t: nat, e: string, ghost found: set<string>)
      requires Tracks() && t in threads && threads[t] == Reconciling(found) && e in found
      requires e in entries
      modifies this`entries, this`threads, this`log
      ensures Tracks() && threads == old(threads)[t := Reconciling(found - {e})]
      ensures entries == Transition(old(entries), e, Sending, Delivered)
    {
      ghost var before := Model();
      entries := Transition(entries, e, Sending, Delivered);
      threads := threads[t := Reconciling(found - {e})];
      Log(before, RecoverOne(t, e));
    }
  }
}

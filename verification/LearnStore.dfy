/**
 The learn store's switch: a marker record with a mode per domain and a generation, writers fenced
 by the generation under a shared lock, and flips under the exclusive lock.
 */
module LearnStore {
  import opened Basics

  // ----- the marker record

  /** A parsed JSON value; Python compares true, 1 and 1.0 as equal. */
  datatype Json =
    | JNull | JBool(bool) | JInt(int) | JReal(real) | JStr(string) | JArr(seq<Json>) | JObj(map<string, Json>)

  datatype Record = Record(friction: string, ledger: string, calls: string, generation: int)

  datatype Error = Invalid | StaleGeneration | Locked | Exhausted

  const MAX_GENERATION := 0x7fff_ffff_ffff_ffff

  const DEFAULT := Record("files", "files", "files", 0)

  predicate IsMode(m: string) { m == "files" || m == "sqlite" }

  predicate IsDomain(d: string) { d == "friction" || d == "ledger" || d == "calls" }

  function ModeOf(r: Record, domain: string): string
    requires IsDomain(domain)
  {
    if domain == "friction" then r.friction else if domain == "ledger" then r.ledger else r.calls
  }

  /** What a readable marker can say. */
  predicate WellFormed(r: Record) {
    IsMode(r.friction) && IsMode(r.ledger) && IsMode(r.calls) && 0 <= r.generation <= MAX_GENERATION
  }

  function ToJson(r: Record): Json {
    JObj(map["version" := JInt(1), "friction" := JStr(r.friction), "ledger" := JStr(r.ledger),
             "calls" := JStr(r.calls), "generation" := JInt(r.generation)])
  }

  function Get(fields: map<string, Json>, key: string): Json {
    if key in fields then fields[key] else JNull
  }

  predicate EqualsOne(v: Json) { v == JInt(1) || v == JBool(true) || v == JReal(1.0) }

  /** `parse_learn_mode`; `None` is text that is not JSON. */
  function Parse(raw: Option<Json>): (r: Result<Record, Error>)
    ensures r.Ok? ==> WellFormed(r.value)
  {
    if raw.None? || !raw.value.JObj? then Err(Invalid)
    else
      match raw.value
      case JObj(fields) =>
        var (generation, friction, ledger, calls) :=
          (Get(fields, "generation"), Get(fields, "friction"), Get(fields, "ledger"), Get(fields, "calls"));
        if !EqualsOne(Get(fields, "version")) then Err(Invalid)
        else
          match (generation, friction, ledger, calls)
          case (JInt(n), JStr(f), JStr(l), JStr(c)) =>
            if 0 <= n <= MAX_GENERATION && IsMode(f) && IsMode(l) && IsMode(c) then Ok(Record(f, l, c, n)) else Err(Invalid)
          case _ => Err(Invalid)
  }

  /** A record survives being written and read back exactly when it is one a marker can hold. */
  lemma RoundTrip(r: Record)
    ensures Parse(Some(ToJson(r))) == Ok(r) <==> WellFormed(r)
    ensures !WellFormed(r) ==> Parse(Some(ToJson(r))) == Err(Invalid)
  {
    var fields := map["version" := JInt(1), "friction" := JStr(r.friction), "ledger" := JStr(r.ledger),
                      "calls" := JStr(r.calls), "generation" := JInt(r.generation)];
    assert ToJson(r) == JObj(fields);
    assert Get(fields, "version") == JInt(1) && Get(fields, "generation") == JInt(r.generation);
    assert Get(fields, "friction") == JStr(r.friction) && Get(fields, "ledger") == JStr(r.ledger) && Get(fields, "calls") == JStr(r.calls);
  }

  predicate HasMode(fields: map<string, Json>, domain: string) {
    domain in fields && (fields[domain] == JStr("files") || fields[domain] == JStr("sqlite"))
  }

  /**
   A marker is readable exactly if it is an object whose version equals one, whose generation is an integer in range,
   and which has a known mode for every domain; and it is read as what it says.
   */
  lemma ParseIff(fields: map<string, Json>)
    ensures Parse(Some(JObj(fields))).Ok? <==>
      && "version" in fields && (fields["version"] == JInt(1) || fields["version"] == JBool(true) || fields["version"] == JReal(1.0))
      && "generation" in fields && fields["generation"].JInt? && (exists n :: fields["generation"] == JInt(n) && 0 <= n < 0x8000_0000_0000_0000)
      && HasMode(fields, "friction") && HasMode(fields, "ledger") && HasMode(fields, "calls")
    ensures Parse(Some(JObj(fields))).Ok? ==>
      var r := Parse(Some(JObj(fields))).value;
      fields["generation"] == JInt(r.generation) && forall d :: IsDomain(d) ==> d in fields && fields[d] == JStr(ModeOf(r, d))
    ensures forall raw: Option<Json> :: raw.None? || !raw.value.JObj? ==> Parse(raw) == Err(Invalid)
  {
  }

  /** `read_learn_mode`: without a marker every domain is on files. */
  function Read(marker: Option<Json>): Result<Record, Error> {
    if marker.None? then Ok(DEFAULT) else Parse(marker)
  }

  /** The record `flip_domain_locked` writes. */
  function Flipped(marker: Option<Json>, domain: string, mode: string): Result<Record, Error> {
    if !IsMode(mode) then Err(Invalid)
    else
      match Read(marker)
      case Err(e) => Err(e)
      case Ok(prior) =>
        if !IsDomain(domain) then Err(Invalid)
        else if prior.generation >= MAX_GENERATION then Err(Exhausted)
        else Ok(Record(if domain == "friction" then mode else prior.friction,
                       if domain == "ledger" then mode else prior.ledger,
                       if domain == "calls" then mode else prior.calls,
                       prior.generation + 1))
  }

  /** Every record a flip can write is read back as written: one domain switched, the generation one higher. */
  lemma FlipReadsBack(marker: Option<Json>, domain: string, mode: string)
    requires Flipped(marker, domain, mode).Ok?
    ensures var (was, r) := (Read(marker).value, Flipped(marker, domain, mode).value);
      && Read(Some(ToJson(r))) == Ok(r)
      && r.generation == was.generation + 1 && ModeOf(r, domain) == mode
      && forall d :: IsDomain(d) && d != domain ==> ModeOf(r, d) == ModeOf(was, d)
  {
    RoundTrip(Flipped(marker, domain, mode).value);
  }

  /** A flip goes through exactly for a known mode and domain, a readable marker and a generation that can grow. */
  lemma FlipsIff(marker: Option<Json>, domain: string, mode: string)
    ensures Flipped(marker, domain, mode).Ok? <==>
      && (mode == "files" || mode == "sqlite") && (domain == "friction" || domain == "ledger" || domain == "calls")
      && Read(marker).Ok? && Read(marker).value.generation < 0x7fff_ffff_ffff_ffff
  {
  }

  /** The marker file; the caller of a flip holds the exclusive lock. */
  class MarkerFile {
    var payload: Option<Json>

    constructor ()
      ensures payload == None
    {
      payload := None;
    }

    /** Writes atomically or, when the write fails, not at all. */
    method FlipDomainLocked(domain: string, mode: string, writeOk: bool) returns (r: Result<Record, Error>)
      modifies this
      ensures r == if Flipped(old(payload), domain, mode).Ok? && !writeOk then Err(Invalid) else Flipped(old(payload), domain, mode)
      ensures payload == if r.Ok? then Some(ToJson(r.value)) else old(payload)
    {
      if !IsMode(mode) {
        return Err(Invalid);
      }
      var prior := Read(payload);
      if prior.Err? {
        return Err(prior.error);
      }
      if !IsDomain(domain) {
        return Err(Invalid);
      }
      if prior.value.generation >= MAX_GENERATION {
        return Err(Exhausted);
      }
      var values := map["friction" := prior.value.friction, "ledger" := prior.value.ledger, "calls" := prior.value.calls];
      values := values[domain := mode];
      var record := Record(values["friction"], values["ledger"], values["calls"], prior.value.generation + 1);
      if !writeOk {
        return Err(Invalid);
      }
      payload := Some(ToJson(record));
      r := Ok(record);
    }
  }

  // ----- writers and flips

  datatype Pc =
    | Sharing(domain: string, held: Option<int>, files: bool)        // shared lock held, marker not read yet
    | Writing(domain: string, backend: string, generation: int, held: Option<int>)
    | FilesWriting(domain: string)
    | Flipping                                                        // exclusive lock held

  datatype State = State(marker: Option<Json>, threads: map<nat, Pc>)

  datatype Step =
    | AcquireShared(t: nat, domain: string, held: Option<int>, files: bool)
    | ReadMarker(t: nat)
    | AcquireExclusive(t: nat)
    | Flip(t: nat, domain: string, mode: string, writeOk: bool)
    | Release(t: nat)

  ghost predicate Enabled(s: State, step: Step) {
    match step
    case AcquireShared(t, _, _, _) => t !in s.threads && forall u :: u in s.threads ==> !s.threads[u].Flipping?
    case ReadMarker(t) => t in s.threads && s.threads[t].Sharing?
    case AcquireExclusive(t) => s.threads == map[]
    case Flip(t, _, _, _) => t in s.threads && s.threads[t].Flipping?
    case Release(t) => t in s.threads
  }

  /** What a writer does once it has read the marker; `None` means it raises and lets go of the lock. */
  function Admitted(pc: Pc, marker: Option<Json>): Option<Pc>
    requires pc.Sharing?
  {
    match Read(marker)
    case Err(_) => None
    case Ok(r) =>
      if pc.held.Some? && pc.held.value != r.generation then None
      else if !IsDomain(pc.domain) then None
      else if !pc.files then Some(Writing(pc.domain, ModeOf(r, pc.domain), r.generation, pc.held))
      else if ModeOf(r, pc.domain) != "files" then None
      else Some(FilesWriting(pc.domain))
  }

  ghost function Apply(s: State, step: Step): State
    requires Enabled(s, step)
  {
    match step
    case AcquireShared(t, domain, held, files) =>
      s.(threads := s.threads[t := Sharing(domain, if files then None else held, files)])
    case ReadMarker(t) =>
      (match Admitted(s.threads[t], s.marker)
       case Some(pc) => s.(threads := s.threads[t := pc])
       case None => s.(threads := s.threads - {t}))
    case AcquireExclusive(t) => s.(threads := s.threads[t := Flipping])
    case Flip(_, domain, mode, writeOk) =>
      (match Flipped(s.marker, domain, mode)
       case Ok(r) => if writeOk then s.(marker := Some(ToJson(r))) else s
       case Err(_) => s)
    case Release(t) => s.(threads := s.threads - {t})
  }

  ghost predicate Runs(s: State, steps: seq<Step>)
    decreases |steps|
  {
    steps == [] || (Enabled(s, steps[0]) && Runs(Apply(s, steps[0]), steps[1..]))
  }

  ghost function After(s: State, steps: seq<Step>): State
    requires Runs(s, steps)
    decreases |steps|
  {
    if steps == [] then s else After(Apply(s, steps[0]), steps[1..])
  }

  /** The marker is readable, admitted writers agree with it, and a flip is alone. */
  ghost predicate Inv(s: State) {
    && Read(s.marker).Ok?
    && (forall t, u :: t in s.threads && u in s.threads && s.threads[t].Flipping? ==> t == u)
    && (forall t :: t in s.threads ==> PcFits(s.threads[t], Read(s.marker).value))
  }

  ghost predicate PcFits(pc: Pc, r: Record) {
    match pc
    case Writing(d, backend, generation, held) =>
      IsDomain(d) && backend == ModeOf(r, d) && generation == r.generation && (held.Some? ==> held.value == generation)
    case FilesWriting(d) => IsDomain(d) && ModeOf(r, d) == "files"
    case _ => true
  }

  lemma StepKeepsInv(s: State, step: Step)
    requires Inv(s) && Enabled(s, step)
    ensures Inv(Apply(s, step))
    ensures var (was, now) := (Read(s.marker).value, Read(Apply(s, step).marker).value);
      now == was || now.generation > was.generation
  {
    if step.Flip? && Flipped(s.marker, step.domain, step.mode).Ok? {
      FlipReadsBack(s.marker, step.domain, step.mode);
    }
  }

  /** Over every interleaving the generation determines the whole mode map: it never repeats with another. */
  lemma {:induction false} GenerationDeterminesModes(s: State, steps: seq<Step>)
    requires Inv(s) && Runs(s, steps)
    ensures Inv(After(s, steps))
    ensures var (was, now) := (Read(s.marker).value, Read(After(s, steps).marker).value);
      now.generation >= was.generation && (now.generation == was.generation ==> now == was)
    decreases |steps|
  {
    if steps != [] {
      StepKeepsInv(s, steps[0]);
      GenerationDeterminesModes(Apply(s, steps[0]), steps[1..]);
    }
  }

  /**
   A writer that read a generation at state `s` and is admitted with it, however much later, writes to
   the backend its domain had when it read that generation.
   */
  lemma HeldWriterKeepsBackend(s: State, steps: seq<Step>, t: nat)
    requires Inv(s) && Runs(s, steps)
    requires var u := After(s, steps);
      t in u.threads && u.threads[t].Writing? && u.threads[t].held == Some(Read(s.marker).value.generation)
    ensures var pc := After(s, steps).threads[t];
      IsDomain(pc.domain) && pc.backend == ModeOf(Read(s.marker).value, pc.domain)
  {
    GenerationDeterminesModes(s, steps);
    assert PcFits(After(s, steps).threads[t], Read(After(s, steps).marker).value);
  }

  const START := State(None, map[])

  /** A waiting writer is let in exactly if its domain is known, its held generation is current, and it writes files only to files. */
  lemma AdmittedIff(s: State, t: nat)
    requires Inv(s) && Enabled(s, ReadMarker(t))
    ensures var (pc, r, now) := (s.threads[t], Read(s.marker).value, Apply(s, ReadMarker(t)).threads);
      && (t in now <==> IsDomain(pc.domain) && (pc.held.Some? ==> pc.held.value == r.generation)
                        && (pc.files ==> ModeOf(r, pc.domain) == "files"))
      && (t in now ==> now[t] == if pc.files then FilesWriting(pc.domain) else Writing(pc.domain, ModeOf(r, pc.domain), r.generation, pc.held))
      && forall u :: u != t ==> (u in now <==> u in s.threads) && (u in now ==> now[u] == s.threads[u])
  {
  }

  lemma {:induction false} MarkerUntouched(s: State, steps: seq<Step>)
    requires Runs(s, steps) && forall i :: 0 <= i < |steps| ==> !steps[i].Flip?
    ensures After(s, steps).marker == s.marker
    decreases |steps|
  {
    if steps != [] {
      assert forall i :: 0 <= i < |steps| - 1 ==> steps[1..][i] == steps[i + 1];
      MarkerUntouched(Apply(s, steps[0]), steps[1..]);
    }
  }

  /** Before anything is flipped every admitted writer, in every run, writes to files at generation zero. */
  lemma BeforeAnyFlip(steps: seq<Step>, t: nat)
    requires Runs(START, steps) && forall i :: 0 <= i < |steps| ==> !steps[i].Flip?
    requires t in After(START, steps).threads && After(START, steps).threads[t].Writing?
    ensures After(START, steps).threads[t].backend == "files" && After(START, steps).threads[t].generation == 0
  {
    GenerationDeterminesModes(START, steps);
    MarkerUntouched(START, steps);
    assert PcFits(After(START, steps).threads[t], Read(After(START, steps).marker).value);
  }

  /** No files writer's body runs while its domain is on sqlite. */
  lemma FilesWritersOnlyOnFiles(steps: seq<Step>, t: nat)
    requires Runs(START, steps)
    requires t in After(START, steps).threads && After(START, steps).threads[t].FilesWriting?
    ensures var u := After(START, steps);
      Read(u.marker).Ok? && IsDomain(u.threads[t].domain) && ModeOf(Read(u.marker).value, u.threads[t].domain) == "files"
  {
    GenerationDeterminesModes(START, steps);
    assert PcFits(After(START, steps).threads[t], Read(After(START, steps).marker).value);
  }
}

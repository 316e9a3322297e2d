/**
 Per-callable complexity over extracted entities: every flow is charged to the smallest callable around
 it, and the cognitive score adds the depth a flow sits at. Name tables are parameters.
 */
module Complexity {
  import opened Basics
  import opened PyText
  import opened Seqs

  datatype Span = Span(startByte: int, endByte: int, startLine: int, startCol: int, endLine: int, endCol: int)

  datatype Kind = Function | CallableBoundary | ControlFlow | Catching | OtherKind

  datatype Entity = Entity(kind: Kind, name: string, fileId: int, span: Span, isTest: bool)

  datatype Role =
    | StructuralDecision | DecisionContainer | DecisionArm | ElseIf | LogicalSequence | Else | Jump | Recursion
    | Preproc | CognitiveDecision | LegacyOnly | LegacyNesting | Catch | Ignored | Unknown

  type Flow = (Entity, Role)

  /** What the name tables say: the role of a control-flow name, and a name in lower case. */
  datatype Tables = Tables(role: string -> Role, lower: string -> string)

  predicate Contains(outer: Span, inner: Span) {
    outer.startByte <= inner.startByte && outer.endByte >= inner.endByte
  }

  function SpanSize(span: Span): nat {
    var size := if span.endByte > span.startByte then span.endByte - span.startByte else 0;
    if size > 0xFFFFFFFF then 0xFFFFFFFF else size
  }

  function LineSpan(span: Span): nat {
    var lines := (if span.endLine > span.startLine then span.endLine - span.startLine else 0) + 1;
    if lines > 0xFFFFFFFF then 0xFFFFFFFF else lines
  }

  // ----- callables and flows

  predicate IsFunction(e: Entity) {
    e.kind == Function && !e.isTest
  }

  /** A boundary counts unless a function already has its span. */
  function IsBoundary(functions: seq<Entity>): Entity -> bool {
    (e: Entity) => e.kind == CallableBoundary && !e.isTest && Filter(functions, SameSpan(e)) == []
  }

  function SameSpan(e: Entity): Entity -> bool {
    (c: Entity) => c.fileId == e.fileId && c.span == e.span
  }

  function Callables(entities: seq<Entity>): seq<Entity> {
    var functions := Filter(entities, IsFunction);
    functions + Filter(entities, IsBoundary(functions))
  }

  function FlowRole(e: Entity, t: Tables): Option<Role> {
    match e.kind
    case Catching => Some(if e.name == "legacy_catch_clause" then LegacyOnly else Catch)
    case ControlFlow => Some(t.role(e.name))
    case _ => None
  }

  function FlowsOf(entities: seq<Entity>, t: Tables): seq<Flow> {
    if entities == [] then []
    else
      var e := entities[|entities| - 1];
      FlowsOf(entities[..|entities| - 1], t)
      + if !e.isTest && FlowRole(e, t).Some? then [(e, FlowRole(e, t).value)] else []
  }

  function InFile(fileId: int): Flow -> bool {
    (f: Flow) => f.0.fileId == fileId
  }

  function Around(c: Entity): Flow -> bool {
    (f: Flow) => Contains(c.span, f.0.span) || (f.0.name == "compensating_usage" && Contains(f.0.span, c.span))
  }

  // ----- attribution

  /** The first entity of the smallest span size. */
  function Smallest(s: seq<Entity>): (r: Option<Entity>)
    ensures r.None? <==> s == []
    ensures r.Some? ==> r.value in s
  {
    if s == [] then None
    else
      match Smallest(s[..|s| - 1])
      case None => Some(s[0])
      case Some(best) =>
        if SpanSize(s[|s| - 1].span) < SpanSize(best.span) then Some(s[|s| - 1]) else Some(best)
  }

  /** The callables of a flow's file that contain it. */
  function Holds(flow: Entity): Entity -> bool {
    (c: Entity) => c.fileId == flow.fileId && Contains(c.span, flow.span)
  }

  predicate AttributedTo(flow: Entity, c: Entity, callables: seq<Entity>) {
    && Holds(flow)(c)
    && var smallest := Smallest(Filter(callables, Holds(flow)));
      smallest.Some? && smallest.value.span == c.span
  }

  function OwnedBy(c: Entity, callables: seq<Entity>): Flow -> bool {
    (f: Flow) => AttributedTo(f.0, c, callables)
  }

  predicate IsEvent(f: Flow) {
    (!f.1.Ignored? && !f.1.Unknown?) || f.0.name == "negation_break" || f.0.name == "compensating_usage"
  }

  predicate Cyclomatic(f: Flow) {
    f.1.StructuralDecision? || f.1.DecisionArm? || f.1.ElseIf? || f.1.LogicalSequence? || f.1.Catch? || f.1.LegacyOnly?
  }

  function CyclomaticComplexity(events: seq<Flow>): nat {
    1 + |Filter(events, Cyclomatic)|
  }

  // ----- depth and score

  predicate StructuralParent(parent: Flow, flow: Entity, hybrid: bool) {
    && parent.0.span != flow.span && Contains(parent.0.span, flow.span)
    && (|| parent.1.StructuralDecision? || parent.1.DecisionContainer? || parent.1.Catch?
        || (!hybrid && (parent.1.LegacyOnly? || parent.1.LegacyNesting?))
        || (hybrid && (parent.1.Else? || parent.1.ElseIf? || parent.1.Preproc? || parent.1.CognitiveDecision?)))
  }

  function ParentOf(flow: Entity, hybrid: bool): Flow -> bool {
    (parent: Flow) => StructuralParent(parent, flow, hybrid)
  }

  function StructuralDepth(flow: Entity, events: seq<Flow>, hybrid: bool): nat {
    |Filter(events, ParentOf(flow, hybrid))|
  }

  predicate Nests(role: Role) {
    role.StructuralDecision? || role.DecisionContainer? || role.Catch? || role.LegacyOnly? || role.LegacyNesting?
  }

  /** The deepest of the flows `todo`, each among `events`. */
  function MaxNesting(todo: seq<Flow>, events: seq<Flow>): nat {
    if todo == [] then 0
    else
      var rest, f := MaxNesting(todo[..|todo| - 1], events), todo[|todo| - 1];
      var depth := StructuralDepth(f.0, events, false);
      if Nests(f.1) && depth > rest then depth else rest
  }

  function Compensates(c: Entity): Flow -> bool {
    (f: Flow) => f.0.name == "compensating_usage" && Contains(f.0.span, c.span)
  }

  predicate NestedIn(scorer: Entity, c: Entity) {
    c.fileId == scorer.fileId && c.span != scorer.span && Contains(scorer.span, c.span)
  }

  function Nested(scorer: Entity): Entity -> bool {
    (c: Entity) => NestedIn(scorer, c)
  }

  function Between(scorer: Entity, flow: Entity, events: seq<Flow>): Entity -> bool {
    (c: Entity) => NestedIn(scorer, c) && Contains(c.span, flow.span) && Filter(events, Compensates(c)) == []
  }

  function CallableDepth(scorer: Entity, flow: Entity, callables: seq<Entity>, events: seq<Flow>): nat {
    |Filter(callables, Between(scorer, flow, events))|
  }

  function WithinHolding(scorer: Entity, flow: Entity): Entity -> bool {
    (c: Entity) => c.fileId == scorer.fileId && Contains(scorer.span, c.span) && Contains(c.span, flow.span)
  }

  function InnermostCallable(flow: Entity, scorer: Entity, callables: seq<Entity>): Span {
    match Smallest(Filter(callables, WithinHolding(scorer, flow)))
    case None => scorer.span
    case Some(c) => c.span
  }

  function Breaks(outer: Entity, inner: Entity): Flow -> bool {
    (f: Flow) => f.0.name == "negation_break" && Contains(f.0.span, inner.span) && Contains(outer.span, f.0.span)
  }

  /** The logical sequences around a flow that belong to the same callable with no negation between. */
  function SequenceAround(flow: Entity, events: seq<Flow>, scorer: Entity, callables: seq<Entity>): Flow -> bool {
    (parent: Flow) =>
      && parent.1.LogicalSequence? && parent.0.span != flow.span && Contains(parent.0.span, flow.span)
      && InnermostCallable(parent.0, scorer, callables) == InnermostCallable(flow, scorer, callables)
      && Filter(events, Breaks(parent.0, flow)) == []
  }

  function EntitiesOf(flows: seq<Flow>): (r: seq<Entity>)
    ensures |r| == |flows|
  {
    seq(|flows|, i requires 0 <= i < |flows| => flows[i].0)
  }

  /** A sequence scores nothing inside one of the same operator, and one otherwise. */
  function SequencePoint(flow: Entity, events: seq<Flow>, scorer: Entity, callables: seq<Entity>, t: Tables): (r: nat)
    ensures r <= 1
  {
    match Smallest(EntitiesOf(Filter(events, SequenceAround(flow, events, scorer, callables))))
    case None => 1
    case Some(nearest) => if t.lower(Strip(nearest.name)) == t.lower(Strip(flow.name)) then 0 else 1
  }

  function EventScore(scorer: Entity, f: Flow, events: seq<Flow>, callables: seq<Entity>, t: Tables): nat {
    match f.1
    case StructuralDecision | DecisionContainer | Catch | CognitiveDecision =>
      1 + StructuralDepth(f.0, events, true) + CallableDepth(scorer, f.0, callables, events)
    case ElseIf | Else | Jump | Recursion => 1
    case Preproc =>
      if f.0.name == "preproc_if"
      then 1 + StructuralDepth(f.0, events, true) + CallableDepth(scorer, f.0, callables, events)
      else 1
    case LogicalSequence => SequencePoint(f.0, events, scorer, callables, t)
    case _ => 0
  }

  /** The score of the events `todo`, each among `events`. */
  function Score(scorer: Entity, todo: seq<Flow>, events: seq<Flow>, callables: seq<Entity>, t: Tables): nat {
    if todo == [] then 0
    else
      Score(scorer, todo[..|todo| - 1], events, callables, t) + EventScore(scorer, todo[|todo| - 1], events, callables, t)
  }

  method CognitiveComplexity(scorer: Entity, events: seq<Flow>, callables: seq<Entity>, t: Tables) returns (score: nat)
    ensures score == Score(scorer, events, events, callables, t)
  {
    score := 0;
    for i := 0 to |events|
      invariant score == Score(scorer, events[..i], events, callables, t)
    {
      assert events[..i + 1][..i] == events[..i];
      var flow, role := events[i].0, events[i].1;
      if role.StructuralDecision? || role.DecisionContainer? || role.Catch? || role.CognitiveDecision? {
        score := score + 1 + StructuralDepth(flow, events, true);
        score := score + CallableDepth(scorer, flow, callables, events);
      } else if role.ElseIf? || role.Else? || role.Jump? || role.Recursion? {
        score := score + 1;
      } else if role.Preproc? {
        if flow.name == "preproc_if" {
          score := score + 1 + StructuralDepth(flow, events, true);
          score := score + CallableDepth(scorer, flow, callables, events);
        } else {
          score := score + 1;
        }
      } else if role.LogicalSequence? {
        score := score + SequencePoint(flow, events, scorer, callables, t);
      }
    }
    assert events[..|events|] == events;
  }

  // ----- the metrics of all callables

  datatype Metrics = Metrics(callable: Entity, cyclomatic: nat, cognitive: nat, maxNesting: nat, lineSpan: nat, byteSize: nat)

  function FlowsAround(flows: seq<Flow>, c: Entity): seq<Flow> {
    Filter(Filter(flows, InFile(c.fileId)), Around(c))
  }

  function OwnEvents(around: seq<Flow>, c: Entity, callables: seq<Entity>): seq<Flow> {
    Filter(Filter(around, OwnedBy(c, callables)), IsEvent)
  }

  function Cognitive(c: Entity, around: seq<Flow>, callables: seq<Entity>, t: Tables): nat {
    Score(c, Filter(around, IsEvent), Filter(around, IsEvent), callables, t)
  }

  /** The metrics of a callable, given the flows around it. */
  function MetricsFor(c: Entity, around: seq<Flow>, callables: seq<Entity>, t: Tables): Metrics {
    var own := OwnEvents(around, c, callables);
    Metrics(c, CyclomaticComplexity(own), Cognitive(c, around, callables, t), MaxNesting(own, own), LineSpan(c.span),
            SpanSize(c.span))
  }

  function Lookup(rolesByFile: map<int, seq<Flow>>, id: int): seq<Flow> {
    if id in rolesByFile then rolesByFile[id] else []
  }

  ghost predicate Grouped(rolesByFile: map<int, seq<Flow>>, flows: seq<Flow>) {
    forall id :: Lookup(rolesByFile, id) == Filter(flows, InFile(id))
  }

  lemma GroupNext(rolesByFile: map<int, seq<Flow>>, flows: seq<Flow>, flow: Flow)
    requires Grouped(rolesByFile, flows)
    ensures Grouped(rolesByFile[flow.0.fileId := Lookup(rolesByFile, flow.0.fileId) + [flow]], flows + [flow])
  {
    var after := rolesByFile[flow.0.fileId := Lookup(rolesByFile, flow.0.fileId) + [flow]];
    forall id ensures Lookup(after, id) == Filter(flows + [flow], InFile(id)) {
      FilterSnoc(flows, flow, InFile(id));
      assert Lookup(rolesByFile, id) == Filter(flows, InFile(id));
    }
  }

  lemma FlowsNext(entities: seq<Entity>, i: nat, t: Tables)
    requires i < |entities|
    ensures FlowsOf(entities[..i + 1], t) ==
            if !entities[i].isTest && FlowRole(entities[i], t).Some?
            then FlowsOf(entities[..i], t) + [(entities[i], FlowRole(entities[i], t).value)]
            else FlowsOf(entities[..i], t)
  {
    assert entities[..i + 1][..i] == entities[..i];
  }

  method GroupFlows(entities: seq<Entity>, t: Tables) returns (rolesByFile: map<int, seq<Flow>>)
    ensures Grouped(rolesByFile, FlowsOf(entities, t))
  {
    rolesByFile := map[];
    for i := 0 to |entities|
      invariant Grouped(rolesByFile, FlowsOf(entities[..i], t))
    {
      var e := entities[i];
      FlowsNext(entities, i, t);
      if e.isTest {
        continue;
      }
      var role := FlowRole(e, t);
      if role.Some? {
        GroupNext(rolesByFile, FlowsOf(entities[..i], t), (e, role.value));
        rolesByFile := rolesByFile[e.fileId := Lookup(rolesByFile, e.fileId) + [(e, role.value)]];
      }
    }
    assert entities[..|entities|] == entities;
  }

  method ReadMetrics(c: Entity, around: seq<Flow>, callables: seq<Entity>, t: Tables) returns (m: Metrics)
    ensures m == MetricsFor(c, around, callables, t)
  {
    var own := Filter(Filter(around, OwnedBy(c, callables)), IsEvent);
    var events := Filter(around, IsEvent);
    var cognitive := CognitiveComplexity(c, events, callables, t);
    m := Metrics(c, CyclomaticComplexity(own), cognitive, MaxNesting(own, own), LineSpan(c.span), SpanSize(c.span));
  }

  function MetricsIn(flows: seq<Flow>, callables: seq<Entity>, t: Tables): Entity -> Metrics {
    (c: Entity) => MetricsFor(c, FlowsAround(flows, c), callables, t)
  }

  function Mapped<A, B>(s: seq<A>, f: A -> B): (r: seq<B>)
    ensures |r| == |s| && forall i :: 0 <= i < |s| ==> r[i] == f(s[i])
  {
    seq(|s|, i requires 0 <= i < |s| => f(s[i]))
  }

  function AllMetrics(entities: seq<Entity>, t: Tables): seq<Metrics> {
    Mapped(Callables(entities), MetricsIn(FlowsOf(entities, t), Callables(entities), t))
  }

  method FunctionComplexities(entities: seq<Entity>, t: Tables) returns (results: seq<Metrics>)
    ensures results == AllMetrics(entities, t)
  {
    var callables := Filter(entities, IsFunction);
    var boundaries := Filter(entities, IsBoundary(callables));
    callables := callables + boundaries;
    var rolesByFile := GroupFlows(entities, t);
    results := MetricsOfAll(callables, rolesByFile, FlowsOf(entities, t), t);
  }

  method MetricsOfAll(callables: seq<Entity>, rolesByFile: map<int, seq<Flow>>, ghost flows: seq<Flow>, t: Tables)
    returns (results: seq<Metrics>)
    requires Grouped(rolesByFile, flows)
    ensures results == Mapped(callables, MetricsIn(flows, callables, t))
  {
    results := [];
    ghost var metrics := MetricsIn(flows, callables, t);
    for i := 0 to |callables|
      invariant results == Mapped(callables[..i], metrics)
    {
      MappedNext(callables, metrics, i);
      var m := ReadGrouped(callables[i], callables, rolesByFile, flows, t);
      results := results + [m];
    }
    assert callables[..|callables|] == callables;
  }

  lemma MappedNext<A, B>(s: seq<A>, f: A -> B, i: nat)
    requires i < |s|
    ensures Mapped(s[..i + 1], f) == Mapped(s[..i], f) + [f(s[i])]
  {
  }

  method ReadGrouped(c: Entity, callables: seq<Entity>, rolesByFile: map<int, seq<Flow>>, ghost flows: seq<Flow>, t: Tables)
    returns (m: Metrics)
    requires Grouped(rolesByFile, flows)
    ensures m == MetricsIn(flows, callables, t)(c)
  {
    var inFile := Lookup(rolesByFile, c.fileId);
    m := ReadMetrics(c, Filter(inFile, Around(c)), callables, t);
  }

  // ----- what is counted

  /** The callables are the functions that are no tests, and the boundaries that are none and have no such function's span. */
  lemma CallablesAre(entities: seq<Entity>, e: Entity)
    ensures e in Callables(entities) <==>
      e in entities && !e.isTest
      && (e.kind == Function
          || (e.kind == CallableBoundary
              && forall f :: f in entities && f.kind == Function && !f.isTest ==> f.fileId != e.fileId || f.span != e.span))
  {
    var functions := Filter(entities, IsFunction);
    var same := Filter(functions, SameSpan(e));
    if same != [] { assert same[0] in same; }
  }

  /** The flows are the control flow and the catches that are no tests, each with the role its kind or its name gives it. */
  lemma {:induction false} FlowsAre(entities: seq<Entity>, t: Tables, f: Flow)
    ensures f in FlowsOf(entities, t) <==>
      f.0 in entities && !f.0.isTest
      && ((f.0.kind == ControlFlow && f.1 == t.role(f.0.name))
          || (f.0.kind == Catching && f.1 == if f.0.name == "legacy_catch_clause" then LegacyOnly else Catch))
  {
    if entities != [] {
      FlowsAre(entities[..|entities| - 1], t, f);
      SplitLast(entities);
    }
  }

  const CYCLOMATIC_ROLES := {StructuralDecision, DecisionArm, ElseIf, LogicalSequence, Catch, LegacyOnly}
  const EVENT_ROLES := CYCLOMATIC_ROLES + {DecisionContainer, Else, Jump, Recursion, Preproc, CognitiveDecision, LegacyNesting}
  const PARENT_ROLES := {StructuralDecision, DecisionContainer, Catch}
  const HYBRID_ROLES := {Else, ElseIf, Preproc, CognitiveDecision}
  const LEGACY_ROLES := {LegacyOnly, LegacyNesting}

  /** Which roles are events, which count for cyclomatic complexity, which nest, and which make what they contain deeper. */
  lemma RolesCounted(f: Flow, flow: Entity)
    ensures IsEvent(f) <==> f.1 in EVENT_ROLES || f.0.name == "negation_break" || f.0.name == "compensating_usage"
    ensures Cyclomatic(f) <==> f.1 in CYCLOMATIC_ROLES
    ensures Nests(f.1) <==> f.1 in PARENT_ROLES + LEGACY_ROLES
    ensures forall hybrid :: StructuralParent(f, flow, hybrid) <==>
      f.0.span != flow.span && Contains(f.0.span, flow.span) && f.1 in PARENT_ROLES + if hybrid then HYBRID_ROLES else LEGACY_ROLES
  {
  }

  /** Sizes are the bytes and the lines of a span, cut off at 32 bits. */
  lemma SizesOf(c: Entity, around: seq<Flow>, callables: seq<Entity>, t: Tables)
    ensures var m := MetricsFor(c, around, callables, t);
      && m.callable == c && m.byteSize < 0x1_0000_0000 && m.lineSpan < 0x1_0000_0000
      && (0 <= c.span.endByte - c.span.startByte < 0x1_0000_0000 ==> m.byteSize == c.span.endByte - c.span.startByte)
      && (0 <= c.span.endLine - c.span.startLine < 0xFFFF_FFFF ==> m.lineSpan == c.span.endLine - c.span.startLine + 1)
  {
  }

  // ----- the callable charged

  predicate Larger(a: Entity, b: Entity) {
    SpanSize(a.span) > SpanSize(b.span)
  }

  /** Position `i` holds the first of the smallest entities that pass the test. */
  ghost predicate FirstSmallest(s: seq<Entity>, p: Entity -> bool, i: nat) {
    && i < |s| && p(s[i])
    && (forall j :: 0 <= j < i && p(s[j]) ==> Larger(s[j], s[i]))
    && (forall j :: i <= j < |s| && p(s[j]) ==> !Larger(s[i], s[j]))
  }

  lemma SmallestOfMore(s: seq<Entity>, e: Entity)
    ensures Smallest(s + [e]) == if s != [] && !Larger(Smallest(s).value, e) then Smallest(s) else Some(e)
  {
    assert (s + [e])[..|s|] == s;
  }

  lemma FirstStays(s: seq<Entity>, p: Entity -> bool, i: nat, e: Entity)
    requires FirstSmallest(s, p, i) && (p(e) ==> !Larger(s[i], e))
    ensures FirstSmallest(s + [e], p, i)
  {
  }

  lemma LastIsFirst(s: seq<Entity>, p: Entity -> bool, e: Entity)
    requires p(e) && forall j :: 0 <= j < |s| && p(s[j]) ==> Larger(s[j], e)
    ensures FirstSmallest(s + [e], p, |s|)
  {
  }

  lemma FirstAlone(s: seq<Entity>, p: Entity -> bool, e: Entity)
    requires Filter(s, p) == [] && p(e)
    ensures FirstSmallest(s + [e], p, |s|) && Smallest(Filter(s + [e], p)) == Some(e)
  {
    FilterSnoc(s, e, p);
    SmallestOfMore([], e);
    forall j | 0 <= j < |s| ensures !p(s[j]) {
      assert s[j] in s;
    }
    LastIsFirst(s, p, e);
  }

  lemma FirstNext(s: seq<Entity>, p: Entity -> bool, i: nat, e: Entity) returns (k: nat)
    requires FirstSmallest(s, p, i) && Filter(s, p) != [] && Smallest(Filter(s, p)) == Some(s[i])
    ensures FirstSmallest(s + [e], p, k) && Smallest(Filter(s + [e], p)) == Some((s + [e])[k])
  {
    FilterSnoc(s, e, p);
    if p(e) { SmallestOfMore(Filter(s, p), e); }
    if p(e) && Larger(s[i], e) {
      LastIsFirst(s, p, e);
      k := |s|;
    } else {
      FirstStays(s, p, i, e);
      k := i;
    }
  }

  /** `min` over a comprehension takes the first of the smallest. */
  lemma {:induction false} SmallestIsFirst(s: seq<Entity>, p: Entity -> bool) returns (i: nat)
    requires Filter(s, p) != []
    ensures FirstSmallest(s, p, i) && Smallest(Filter(s, p)) == Some(s[i])
    decreases |s|, 0
  {
    var t, e := s[..|s| - 1], s[|s| - 1];
    SplitLast(s);
    i := SmallestOfSnoc(t, p, e);
  }

  lemma {:induction false} SmallestOfSnoc(t: seq<Entity>, p: Entity -> bool, e: Entity) returns (i: nat)
    requires Filter(t + [e], p) != []
    ensures FirstSmallest(t + [e], p, i) && Smallest(Filter(t + [e], p)) == Some((t + [e])[i])
    decreases |t|, 1
  {
    if Filter(t, p) == [] {
      PassesAlone(t, p, e);
      i := |t|;
      FirstAlone(t, p, e);
    } else {
      i := SmallestIsFirst(t, p);
      i := FirstNext(t, p, i, e);
    }
  }

  lemma PassesAlone(t: seq<Entity>, p: Entity -> bool, e: Entity)
    requires Filter(t, p) == [] && Filter(t + [e], p) != []
    ensures p(e)
  {
    FilterSnoc(t, e, p);
  }

  lemma OneFirst(s: seq<Entity>, p: Entity -> bool, i: nat, j: nat)
    requires FirstSmallest(s, p, i) && FirstSmallest(s, p, j)
    ensures i == j
  {
  }

  /** A flow is charged exactly to the callables around it that have the span of the first smallest one around it. */
  lemma AttributedIff(flow: Entity, c: Entity, callables: seq<Entity>)
    ensures AttributedTo(flow, c, callables) <==>
      c.fileId == flow.fileId && Contains(c.span, flow.span)
      && exists i: nat :: FirstSmallest(callables, Holds(flow), i) && callables[i].span == c.span
  {
    if Filter(callables, Holds(flow)) != [] {
      var i := SmallestIsFirst(callables, Holds(flow));
      forall j: nat | FirstSmallest(callables, Holds(flow), j) ensures j == i {
        OneFirst(callables, Holds(flow), i, j);
      }
    } else {
      forall i: nat ensures !FirstSmallest(callables, Holds(flow), i) {
        if i < |callables| { assert callables[i] in callables; }
      }
    }
  }

  /** No callable of the flow's file that contains the flow is smaller than the one it is charged to. */
  lemma ChargedToSmallest(flow: Entity, c: Entity, callables: seq<Entity>, d: Entity)
    requires AttributedTo(flow, c, callables)
    requires d in callables && d.fileId == flow.fileId && Contains(d.span, flow.span)
    ensures Contains(c.span, flow.span) && SpanSize(c.span) <= SpanSize(d.span)
  {
    var i := SmallestIsFirst(callables, Holds(flow));
    var j :| 0 <= j < |callables| && callables[j] == d;
    assert Holds(flow)(callables[j]);
  }

  // ----- every flow is charged once

  ghost predicate DistinctSpans(callables: seq<Entity>) {
    forall i, j :: 0 <= i < j < |callables| && callables[i].fileId == callables[j].fileId ==> callables[i].span != callables[j].span
  }

  /** A callable and a flow that is counted and charged to it. */
  function Charged(callables: seq<Entity>): (Entity, Flow) -> bool {
    (c: Entity, f: Flow) => Cyclomatic(f) && AttributedTo(f.0, c, callables)
  }

  function ChargedTo(f: Flow, callables: seq<Entity>): Entity -> bool {
    Column(Charged(callables), f)
  }

  function Charges(c: Entity, callables: seq<Entity>): Flow -> bool {
    Row(Charged(callables), c)
  }

  function Both<T>(p: T -> bool, q: T -> bool): T -> bool {
    (x: T) => p(x) && q(x)
  }

  lemma FilterFive<T>(s: seq<T>, a: T -> bool, b: T -> bool, c: T -> bool, d: T -> bool, e: T -> bool, all: T -> bool)
    requires forall x :: x in s ==> all(x) == (a(x) && b(x) && c(x) && d(x) && e(x))
    ensures Filter(Filter(Filter(Filter(Filter(s, a), b), c), d), e) == Filter(s, all)
  {
    var ab := Both(a, b);
    var abc := Both(ab, c);
    FilterTwice(s, a, b, ab);
    FilterTwice(s, ab, c, abc);
    FilterTwice(s, abc, d, Both(abc, d));
    FilterTwice(s, Both(abc, d), e, all);
  }

  /** What a callable's cyclomatic count holds beyond one: the flows charged to it. */
  lemma OwnCount(flows: seq<Flow>, c: Entity, callables: seq<Entity>)
    ensures CyclomaticComplexity(OwnEvents(FlowsAround(flows, c), c, callables)) == 1 + |Filter(flows, Charges(c, callables))|
  {
    FilterFive(flows, InFile(c.fileId), Around(c), OwnedBy(c, callables), IsEvent, Cyclomatic, Charges(c, callables));
  }

  lemma SmallestHolds(flow: Entity, callables: seq<Entity>)
    ensures var smallest := Smallest(Filter(callables, Holds(flow)));
      smallest.Some? ==> smallest.value in callables && Holds(flow)(smallest.value)
  {
  }

  lemma {:induction false} AtMostOne<T>(s: seq<T>, p: T -> bool)
    requires forall i, j :: 0 <= i < j < |s| ==> !(p(s[i]) && p(s[j]))
    ensures |Filter(s, p)| == if exists x :: x in s && p(x) then 1 else 0
  {
    if s != [] {
      var t, x := s[..|s| - 1], s[|s| - 1];
      AtMostOne(t, p);
      if p(x) {
        FilterNone(t, p);
      }
    }
  }

  /** The flows that count for cyclomatic complexity and lie inside some callable of their file. */
  function CountedInside(callables: seq<Entity>): Flow -> bool {
    (f: Flow) => Cyclomatic(f) && Filter(callables, Holds(f.0)) != []
  }

  /** Among callables of different spans a flow is charged to exactly one, if any contains it. */
  lemma OneOwner(f: Flow, callables: seq<Entity>)
    requires DistinctSpans(callables)
    ensures |Filter(callables, ChargedTo(f, callables))| == if CountedInside(callables)(f) then 1 else 0
  {
    SmallestHolds(f.0, callables);
    AtMostOne(callables, ChargedTo(f, callables));
    if CountedInside(callables)(f) {
      var smallest := Smallest(Filter(callables, Holds(f.0)));
      assert ChargedTo(f, callables)(smallest.value);
    }
  }

  function SumExtra(metrics: seq<Metrics>): int {
    if metrics == [] then 0 else SumExtra(metrics[..|metrics| - 1]) + metrics[|metrics| - 1].cyclomatic - 1
  }

  lemma ExtraOf(c: Entity, flows: seq<Flow>, callables: seq<Entity>, t: Tables)
    ensures MetricsIn(flows, callables, t)(c).cyclomatic == 1 + |Filter(flows, Charges(c, callables))|
  {
    OwnCount(flows, c, callables);
  }

  lemma {:induction false} ExtraIsCharged(cs: seq<Entity>, flows: seq<Flow>, callables: seq<Entity>, t: Tables)
    ensures SumExtra(Mapped(cs, MetricsIn(flows, callables, t))) == RowSum(cs, flows, Charged(callables))
  {
    if cs != [] {
      var rest, c := cs[..|cs| - 1], cs[|cs| - 1];
      ExtraIsCharged(rest, flows, callables, t);
      ExtraOf(c, flows, callables, t);
      SumExtraNext(cs, MetricsIn(flows, callables, t));
    }
  }

  lemma SumExtraNext(cs: seq<Entity>, metrics: Entity -> Metrics)
    requires cs != []
    ensures SumExtra(Mapped(cs, metrics))
         == SumExtra(Mapped(cs[..|cs| - 1], metrics)) + metrics(cs[|cs| - 1]).cyclomatic - 1
  {
    assert Mapped(cs, metrics)[..|cs| - 1] == Mapped(cs[..|cs| - 1], metrics);
  }

  lemma {:induction false} OwnersAddUp(flows: seq<Flow>, callables: seq<Entity>)
    requires DistinctSpans(callables)
    ensures ColumnSum(callables, flows, Charged(callables)) == |Filter(flows, CountedInside(callables))|
  {
    if flows != [] {
      var f := flows[|flows| - 1];
      OwnersAddUp(flows[..|flows| - 1], callables);
      OneOwner(f, callables);
    }
  }

  /**
   For any entities, what the cyclomatic counts hold beyond one adds up, flow by flow, to the number of
   callables that share the smallest span around the flow.
   */
  lemma ChargesAddUp(entities: seq<Entity>, t: Tables)
    ensures SumExtra(AllMetrics(entities, t)) == ColumnSum(Callables(entities), FlowsOf(entities, t), Charged(Callables(entities)))
  {
    ExtraIsCharged(Callables(entities), FlowsOf(entities, t), Callables(entities), t);
    DoubleCount(Callables(entities), FlowsOf(entities, t), Charged(Callables(entities)));
  }

  /** With callables of different spans in every file, every counted flow inside a callable is charged exactly once. */
  lemma CyclomaticConserved(entities: seq<Entity>, t: Tables)
    requires DistinctSpans(Callables(entities))
    ensures SumExtra(AllMetrics(entities, t)) == |Filter(FlowsOf(entities, t), CountedInside(Callables(entities)))|
  {
    ChargesAddUp(entities, t);
    OwnersAddUp(FlowsOf(entities, t), Callables(entities));
  }

  // ----- the cognitive score is bounded

  /** Spans with the same bytes are the same span. */
  ghost predicate SpansByBytes(events: seq<Flow>) {
    forall f, g :: f in events && g in events && f.0.span.startByte == g.0.span.startByte && f.0.span.endByte == g.0.span.endByte ==>
      f.0.span == g.0.span
  }

  predicate StrictlyAround(outer: Flow, inner: Flow) {
    outer.0.span != inner.0.span && Contains(outer.0.span, inner.0.span)
  }

  function AroundFlow(inner: Flow): Flow -> bool {
    (outer: Flow) => StrictlyAround(outer, inner)
  }

  function InsideFlow(outer: Flow): Flow -> bool {
    (inner: Flow) => StrictlyAround(outer, inner)
  }

  function Pairs(todo: seq<Flow>, events: seq<Flow>): nat {
    if todo == [] then 0 else Pairs(todo[..|todo| - 1], events) + |Filter(events, AroundFlow(todo[|todo| - 1]))|
  }

  lemma {:induction false} FilterSmaller<T>(s: seq<T>, p: T -> bool, q: T -> bool)
    requires forall x :: x in s && p(x) ==> q(x)
    ensures |Filter(s, p)| <= |Filter(s, q)|
  {
    if s != [] { FilterSmaller(s[..|s| - 1], p, q); }
  }

  lemma {:induction false} DisjointFilters<T>(s: seq<T>, p: T -> bool, q: T -> bool)
    requires forall x :: x in s ==> !(p(x) && q(x))
    ensures |Filter(s, p)| + |Filter(s, q)| <= |s|
  {
    if s != [] { DisjointFilters(s[..|s| - 1], p, q); }
  }

  lemma {:induction false} AddOuter(todo: seq<Flow>, events: seq<Flow>, x: Flow)
    ensures Pairs(todo, events + [x]) == Pairs(todo, events) + |Filter(todo, InsideFlow(x))|
  {
    if todo != [] {
      var f := todo[|todo| - 1];
      AddOuter(todo[..|todo| - 1], events, x);
      FilterSnoc(events, x, AroundFlow(f));
    }
  }

  lemma PairsSnoc(events: seq<Flow>, x: Flow)
    ensures Pairs(events + [x], events + [x])
         == Pairs(events, events) + |Filter(events, InsideFlow(x))| + |Filter(events, AroundFlow(x))|
  {
    assert (events + [x])[..|events|] == events;
    AddOuter(events, events, x);
    FilterSnoc(events, x, AroundFlow(x));
  }

  lemma OneWay(events: seq<Flow>, rest: seq<Flow>, x: Flow)
    requires SpansByBytes(events) && (forall f :: f in rest ==> f in events) && x in events
    ensures |Filter(rest, InsideFlow(x))| + |Filter(rest, AroundFlow(x))| <= |rest|
  {
    DisjointFilters(rest, InsideFlow(x), AroundFlow(x));
  }

  /** Of two spans that differ in their bytes at most one contains the other. */
  lemma {:induction false} PairsBound(events: seq<Flow>)
    requires SpansByBytes(events)
    ensures 2 * Pairs(events, events) <= |events| * (|events| - 1)
  {
    if events != [] {
      var rest, x := events[..|events| - 1], events[|events| - 1];
      SplitLast(events);
      PairsBound(rest);
      PairsSnoc(rest, x);
      OneWay(events, rest, x);
      OneMore(|rest|, Pairs(rest, rest), |Filter(rest, InsideFlow(x))| + |Filter(rest, AroundFlow(x))|);
    }
  }

  lemma OneMore(n: nat, pairs: nat, more: nat)
    requires 2 * pairs <= n * (n - 1) && more <= n
    ensures 2 * (pairs + more) <= (n + 1) * n
  {
    assert (n + 1) * n == n * (n - 1) + 2 * n;
  }

  function NestedCount(scorer: Entity, callables: seq<Entity>): nat {
    |Filter(callables, Nested(scorer))|
  }

  lemma DepthBound(f: Flow, events: seq<Flow>)
    ensures StructuralDepth(f.0, events, true) <= |Filter(events, AroundFlow(f))|
  {
    FilterSmaller(events, ParentOf(f.0, true), AroundFlow(f));
  }

  lemma CallableBound(scorer: Entity, f: Flow, events: seq<Flow>, callables: seq<Entity>)
    ensures CallableDepth(scorer, f.0, callables, events) <= NestedCount(scorer, callables)
  {
    FilterSmaller(callables, Between(scorer, f.0, events), Nested(scorer));
  }

  lemma EventBound(scorer: Entity, f: Flow, events: seq<Flow>, callables: seq<Entity>, t: Tables)
    ensures EventScore(scorer, f, events, callables, t)
         <= 1 + |Filter(events, AroundFlow(f))| + NestedCount(scorer, callables)
  {
    DepthBound(f, events);
    CallableBound(scorer, f, events, callables);
  }

  lemma {:induction false} ScoreBound(scorer: Entity, todo: seq<Flow>, events: seq<Flow>, callables: seq<Entity>, t: Tables)
    ensures Score(scorer, todo, events, callables, t)
         <= |todo| + Pairs(todo, events) + |todo| * NestedCount(scorer, callables)
  {
    if todo != [] {
      var k := NestedCount(scorer, callables);
      ScoreBound(scorer, todo[..|todo| - 1], events, callables, t);
      EventBound(scorer, todo[|todo| - 1], events, callables, t);
      assert (|todo| - 1) * k + k == |todo| * k;
    }
  }

  /**
   A callable with `n` events around it and `k` callables nested in it scores at most n(n+1)/2 + n*k, when
   spans are determined by their bytes.
   */
  lemma CognitiveBound(c: Entity, around: seq<Flow>, callables: seq<Entity>, t: Tables)
    requires SpansByBytes(Filter(around, IsEvent))
    ensures var n := |Filter(around, IsEvent)|;
      Cognitive(c, around, callables, t) <= n * (n + 1) / 2 + n * NestedCount(c, callables)
  {
    var events := Filter(around, IsEvent);
    ScoreBound(c, events, events, callables, t);
    PairsBound(events);
    Halve(|events|, Pairs(events, events));
  }

  lemma Halve(n: nat, pairs: nat)
    requires 2 * pairs <= n * (n - 1)
    ensures n + pairs <= n * (n + 1) / 2
  {
    assert n * (n + 1) == n * (n - 1) + 2 * n;
  }

  const WIDE := Entity(ControlFlow, "if", 0, Span(0, 10, 1, 0, 2, 0), false)
  const SHIFTED := WIDE.(span := Span(0, 10, 1, 0, 3, 0))

  /** Two events with the same bytes and different lines contain each other and exceed the bound. */
  lemma SameBytesExceedBound(c: Entity, t: Tables)
    ensures var events := [(WIDE, StructuralDecision), (SHIFTED, StructuralDecision)];
      Score(c, events, events, [], t) == 4 > |events| * (|events| + 1) / 2 + |events| * NestedCount(c, [])
  {
    var a, b := (WIDE, StructuralDecision), (SHIFTED, StructuralDecision);
    var events := [a, b];
    assert events[..1] == [a] && [a][..0] == [];
    assert Filter(events, ParentOf(WIDE, true)) == [b];
    assert Filter(events, ParentOf(SHIFTED, true)) == [a];
    assert EventScore(c, a, events, [], t) == 2 && EventScore(c, b, events, [], t) == 2;
    assert Score(c, [a], events, [], t) == 2;
  }
}

/** What the nesting and the cognitive score of a callable add up to, seen from the flows that surround others. */
module CognitiveScore {
  import opened Basics
  import opened Complexity
  import opened PyText
  import opened Seqs

  // ----- nesting

  /** The nesting of a list of flows is the depth of its deepest nesting flow, and zero without one. */
  lemma {:induction false} DeepestNesting(todo: seq<Flow>, events: seq<Flow>)
    ensures forall f :: f in todo && Nests(f.1) ==> StructuralDepth(f.0, events, false) <= MaxNesting(todo, events)
    ensures (exists f :: f in todo && Nests(f.1) && StructuralDepth(f.0, events, false) == MaxNesting(todo, events))
         || (MaxNesting(todo, events) == 0 && forall f :: f in todo ==> !Nests(f.1))
  {
    if todo != [] {
      DeepestNesting(todo[..|todo| - 1], events);
      SplitLast(todo);
    }
  }

  // ----- logical sequences

  function Any(e: Entity): bool { true }

  predicate SameOperator(a: Entity, b: Entity, t: Tables) {
    t.lower(Strip(a.name)) == t.lower(Strip(b.name))
  }

  /** The first of the smallest entities has the operator of the flow. */
  ghost predicate FirstAgrees(around: seq<Entity>, flow: Entity, t: Tables) {
    exists i: nat :: FirstSmallest(around, Any, i) && SameOperator(around[i], flow, t)
  }

  function NearestPoint(around: seq<Entity>, flow: Entity, t: Tables): nat {
    match Smallest(around)
    case None => 1
    case Some(nearest) => if SameOperator(nearest, flow, t) then 0 else 1
  }

  lemma NearestIsFirst(around: seq<Entity>, flow: Entity, t: Tables)
    ensures NearestPoint(around, flow, t) == 0 <==> FirstAgrees(around, flow, t)
  {
    FilterAll(around, Any);
    if around != [] {
      var i := SmallestIsFirst(around, Any);
      forall j: nat | FirstSmallest(around, Any, j) ensures j == i {
        OneFirst(around, Any, i, j);
      }
    }
  }

  function SequencesAround(flow: Entity, events: seq<Flow>, scorer: Entity, callables: seq<Entity>): seq<Entity> {
    EntitiesOf(Filter(events, SequenceAround(flow, events, scorer, callables)))
  }

  lemma PointOfNearest(flow: Entity, events: seq<Flow>, scorer: Entity, callables: seq<Entity>, t: Tables)
    ensures SequencePoint(flow, events, scorer, callables, t)
         == NearestPoint(SequencesAround(flow, events, scorer, callables), flow, t)
  {
  }

  /** A sequence scores nothing exactly when the first of the smallest sequences around it has the same operator. */
  lemma SequencePointIff(flow: Entity, events: seq<Flow>, scorer: Entity, callables: seq<Entity>, t: Tables)
    ensures SequencePoint(flow, events, scorer, callables, t) == 0
       <==> FirstAgrees(SequencesAround(flow, events, scorer, callables), flow, t)
  {
    PointOfNearest(flow, events, scorer, callables, t);
    NearestIsFirst(SequencesAround(flow, events, scorer, callables), flow, t);
  }

  /** The innermost callable of a flow is the first of the smallest ones between it and the callable scored. */
  lemma InnermostIs(flow: Entity, scorer: Entity, callables: seq<Entity>)
    ensures if Filter(callables, WithinHolding(scorer, flow)) == [] then InnermostCallable(flow, scorer, callables) == scorer.span
            else exists i: nat :: FirstSmallest(callables, WithinHolding(scorer, flow), i)
                                  && InnermostCallable(flow, scorer, callables) == callables[i].span
  {
    if Filter(callables, WithinHolding(scorer, flow)) != [] {
      var i := SmallestIsFirst(callables, WithinHolding(scorer, flow));
    }
  }

  // ----- the score, parent by parent

  /** The flows whose depth is scored. */
  predicate ScoresDepth(f: Flow) {
    f.1.StructuralDecision? || f.1.DecisionContainer? || f.1.Catch? || f.1.CognitiveDecision?
    || (f.1.Preproc? && f.0.name == "preproc_if")
  }

  /** What a flow scores at depth zero. */
  function Flat(scorer: Entity, f: Flow, events: seq<Flow>, callables: seq<Entity>, t: Tables): nat {
    if ScoresDepth(f) || f.1.ElseIf? || f.1.Else? || f.1.Jump? || f.1.Recursion? || f.1.Preproc? then 1
    else if f.1.LogicalSequence? then SequencePoint(f.0, events, scorer, callables, t)
    else 0
  }

  function FlatSum(scorer: Entity, todo: seq<Flow>, events: seq<Flow>, callables: seq<Entity>, t: Tables): nat {
    if todo == [] then 0
    else FlatSum(scorer, todo[..|todo| - 1], events, callables, t) + Flat(scorer, todo[|todo| - 1], events, callables, t)
  }

  /** A structural flow around a flow whose depth is scored. */
  function Deepens(parent: Flow, f: Flow): bool {
    ScoresDepth(f) && StructuralParent(parent, f.0, true)
  }

  /** A nested callable around a flow whose depth is scored. */
  function Wraps(scorer: Entity, events: seq<Flow>): (Entity, Flow) -> bool {
    (c: Entity, f: Flow) => ScoresDepth(f) && Between(scorer, f.0, events)(c)
  }

  lemma DepthIsColumn(f: Flow, events: seq<Flow>)
    ensures |Filter(events, Column(Deepens, f))| == if ScoresDepth(f) then StructuralDepth(f.0, events, true) else 0
  {
    if ScoresDepth(f) {
      FilterCongruent(events, Column(Deepens, f), ParentOf(f.0, true));
    } else {
      FilterNone(events, Column(Deepens, f));
    }
  }

  lemma CallablesAreColumn(scorer: Entity, f: Flow, events: seq<Flow>, callables: seq<Entity>)
    ensures |Filter(callables, Column(Wraps(scorer, events), f))|
         == if ScoresDepth(f) then CallableDepth(scorer, f.0, callables, events) else 0
  {
    if ScoresDepth(f) {
      FilterCongruent(callables, Column(Wraps(scorer, events), f), Between(scorer, f.0, events));
    } else {
      FilterNone(callables, Column(Wraps(scorer, events), f));
    }
  }

  lemma EventByColumns(scorer: Entity, f: Flow, events: seq<Flow>, callables: seq<Entity>, t: Tables)
    ensures EventScore(scorer, f, events, callables, t)
         == Flat(scorer, f, events, callables, t) + |Filter(events, Column(Deepens, f))|
            + |Filter(callables, Column(Wraps(scorer, events), f))|
  {
    DepthIsColumn(f, events);
    CallablesAreColumn(scorer, f, events, callables);
  }

  lemma {:induction false} ScoreByColumns(scorer: Entity, todo: seq<Flow>, events: seq<Flow>, callables: seq<Entity>, t: Tables)
    ensures Score(scorer, todo, events, callables, t)
         == FlatSum(scorer, todo, events, callables, t) + ColumnSum(events, todo, Deepens)
            + ColumnSum(callables, todo, Wraps(scorer, events))
  {
    if todo != [] {
      var f := todo[|todo| - 1];
      ScoreByColumns(scorer, todo[..|todo| - 1], events, callables, t);
      EventByColumns(scorer, f, events, callables, t);
    }
  }

  /**
   The cognitive score is what every event scores at depth zero, plus for every structural event the number of
   events it deepens, plus for every nested callable the number of events it wraps.
   */
  lemma ScoreByParents(scorer: Entity, events: seq<Flow>, callables: seq<Entity>, t: Tables)
    ensures Score(scorer, events, events, callables, t)
         == FlatSum(scorer, events, events, callables, t) + RowSum(events, events, Deepens)
            + RowSum(callables, events, Wraps(scorer, events))
  {
    ScoreByColumns(scorer, events, events, callables, t);
    DoubleCount(events, events, Deepens);
    DoubleCount(callables, events, Wraps(scorer, events));
  }
}

/**
 * Every query the engine sends is scoped to one farm, so a farm's rules see
 * only that farm's rows: rows of other farms never change an outcome.
 */
module FarmIsolation {
  import opened Wrappers
  import opened WeatherStore
  import opened Conditions

  /** Two contexts that agree on everything a farm's evaluation may read. */
  predicate SameFarmView(a: Ctx, b: Ctx) {
    a.farm == b.farm && a.now == b.now && a.snapshot == b.snapshot
    && FarmRows(a.rows, a.farm) == FarmRows(b.rows, b.farm)
  }

  /** A leaf evaluator that reads only the farm's view of the context. */
  ghost predicate FarmScoped(leaf: LeafEval) {
    forall a, b, c :: SameFarmView(a, b) ==> leaf(a, c) == leaf(b, c)
  }

  // ---------------------------------------------------------------- the queries

  lemma LatestTwoScoped(r1: seq<Row>, r2: seq<Row>, farm: string, upTo: int)
    requires FarmRows(r1, farm) == FarmRows(r2, farm)
    ensures LatestTwo(r1, farm, upTo) == LatestTwo(r2, farm, upTo)
  {
    assert UpTo(r1, farm, upTo) == UpTo(r2, farm, upTo);
  }

  lemma CountMatchingScoped(r1: seq<Row>, r2: seq<Row>, farm: string, metric: Metric, op: string, value: real, after: real)
    requires FarmRows(r1, farm) == FarmRows(r2, farm) && IsSqlComparison(op)
    ensures CountMatching(r1, farm, metric, op, value, after) == CountMatching(r2, farm, metric, op, value, after)
  {
  }

  lemma EarliestMatchScoped(r1: seq<Row>, r2: seq<Row>, farm: string, metric: Metric, op: string, value: real, after: int)
    requires FarmRows(r1, farm) == FarmRows(r2, farm) && IsSqlComparison(op)
    ensures EarliestMatch(r1, farm, metric, op, value, after) == EarliestMatch(r2, farm, metric, op, value, after)
  {
  }

  lemma AverageBetweenScoped(r1: seq<Row>, r2: seq<Row>, farm: string, metric: Metric, lo: int, hi: int)
    requires FarmRows(r1, farm) == FarmRows(r2, farm)
    ensures AverageBetween(r1, farm, metric, lo, hi) == AverageBetween(r2, farm, metric, lo, hi)
  {
  }

  // ---------------------------------------------------------------- leaves

  lemma RateScoped(a: Ctx, b: Ctx, c: Condition)
    requires SameFarmView(a, b) && c.Leaf?
    ensures EvalRate(a, c) == EvalRate(b, c)
  {
    LatestTwoScoped(a.rows, b.rows, a.farm, a.now);
  }

  lemma DayAverageScoped(a: Ctx, b: Ctx, metric: Metric, offset: int)
    requires SameFarmView(a, b)
    ensures DayAverage(a, metric, offset) == DayAverage(b, metric, offset)
  {
    AverageBetweenScoped(a.rows, b.rows, a.farm, metric, DayStart(a.now, offset), DayEnd(a.now, offset));
  }

  lemma DayDiffScoped(a: Ctx, b: Ctx, c: Condition)
    requires SameFarmView(a, b) && c.Leaf?
    ensures EvalDayDiff(a, c) == EvalDayDiff(b, c)
  {
    if c.temporal.Some? && c.temporal.value.day1.Some? && c.temporal.value.day2.Some? {
      var r1 := ResolveDay(c.temporal.value.day1.value);
      var r2 := ResolveDay(c.temporal.value.day2.value);
      if r1.Ok? && r2.Ok? {
        DayAverageScoped(a, b, c.metric, r1.value);
        DayAverageScoped(a, b, c.metric, r2.value);
        assert DayDiffOutcome(a, c.metric, c.value, r1.value, r2.value)
            == DayDiffOutcome(b, c.metric, c.value, r1.value, r2.value);
      }
    }
  }

  lemma WindowScoped(a: Ctx, b: Ctx, c: Condition)
    requires SameFarmView(a, b) && c.Leaf? && c.temporal.Some? && IsInstantOperator(c.op)
    ensures EvalWindow(a, c) == EvalWindow(b, c)
  {
    forall after: real
      ensures CountMatching(a.rows, a.farm, c.metric, c.op, c.value, after) == CountMatching(b.rows, b.farm, c.metric, c.op, c.value, after)
    {
      CountMatchingScoped(a.rows, b.rows, a.farm, c.metric, c.op, c.value, after);
    }
  }

  /** `evaluate_condition` reads only the farm's rows, the time and the snapshot. */
  lemma LeafScoped(a: Ctx, b: Ctx, c: Condition)
    requires SameFarmView(a, b)
    ensures EvalCondition(a, c) == EvalCondition(b, c)
  {
    if c.Leaf? {
      if c.op == "RATE>" {
        RateScoped(a, b, c);
      } else if c.op == "DAY_DIFF>" {
        DayDiffScoped(a, b, c);
      } else if c.temporal.Some? && IsInstantOperator(c.op) {
        WindowScoped(a, b, c);
      }
    }
  }

  lemma EvalConditionScoped()
    ensures FarmScoped(EvalCondition)
  {
    forall a, b, c | SameFarmView(a, b)
      ensures EvalCondition(a, c) == EvalCondition(b, c)
    {
      LeafScoped(a, b, c);
    }
  }

  // ---------------------------------------------------------------- the tree

  lemma StepMatchScoped(a: Ctx, b: Ctx, step: Condition)
    requires SameFarmView(a, b)
    ensures StepMatch(a, step) == StepMatch(b, step)
  {
    if step.Leaf? && IsSqlComparison(step.op) {
      EarliestMatchScoped(a.rows, b.rows, a.farm, step.metric, step.op, step.value, SequenceStart(a.now));
    }
  }

  lemma {:induction false} SequenceScoped(a: Ctx, b: Ctx, steps: seq<Condition>, i: nat, last: Option<int>, bound: Option<Span>)
    requires SameFarmView(a, b) && i <= |steps|
    ensures SequenceFrom(StepMatch, a, steps, i, last, bound) == SequenceFrom(StepMatch, b, steps, i, last, bound)
    decreases |steps| - i
  {
    if i < |steps| {
      StepMatchScoped(a, b, steps[i]);
      var t := StepMatch(a, steps[i]);
      if t.Ok? && t.value.Some? {
        SequenceScoped(a, b, steps, i + 1, Some(t.value.value), NextBound(steps, i, bound));
      }
    }
  }

  lemma {:induction false} TreeScoped(leaf: LeafEval, a: Ctx, b: Ctx, c: Condition)
    requires FarmScoped(leaf) && SameFarmView(a, b)
    ensures EvalTree(leaf, a, c) == EvalTree(leaf, b, c)
    decreases c, 1
  {
    if c.Items? {
      AllOfScoped(leaf, a, b, c, 0);
    } else {
      var op := GroupOperator(c);
      if op == "AND" {
        AllOfScoped(leaf, a, b, c, 0);
      } else if op == "OR" {
        AnyOfScoped(leaf, a, b, c, 0);
      } else if op == "NOT" {
        if c.Group? && c.subs != [] {
          TreeScoped(leaf, a, b, c.subs[0]);
        }
      } else if op == "SEQUENCE" {
        SequenceScoped(a, b, Children(c), 0, None, None);
      }
    }
  }

  lemma {:induction false} ChildScoped(leaf: LeafEval, a: Ctx, b: Ctx, c: Condition, i: nat)
    requires FarmScoped(leaf) && SameFarmView(a, b) && i < |Children(c)|
    ensures ChildOutcome(leaf, a, c, i) == ChildOutcome(leaf, b, c, i)
    decreases c, 0, 0
  {
    if c.Group? && !c.subs[i].Leaf? {
      TreeScoped(leaf, a, b, c.subs[i]);
    }
  }

  lemma {:induction false} AllOfScoped(leaf: LeafEval, a: Ctx, b: Ctx, c: Condition, i: nat)
    requires FarmScoped(leaf) && SameFarmView(a, b) && i <= |Children(c)|
    ensures AllOf(leaf, a, c, i) == AllOf(leaf, b, c, i)
    decreases c, 0, |Children(c)| - i + 1
  {
    if i < |Children(c)| {
      ChildScoped(leaf, a, b, c, i);
      AllOfScoped(leaf, a, b, c, i + 1);
    }
  }

  lemma {:induction false} AnyOfScoped(leaf: LeafEval, a: Ctx, b: Ctx, c: Condition, i: nat)
    requires FarmScoped(leaf) && SameFarmView(a, b) && i <= |Children(c)|
    ensures AnyOf(leaf, a, c, i) == AnyOf(leaf, b, c, i)
    decreases c, 0, |Children(c)| - i + 1
  {
    if i < |Children(c)| {
      ChildScoped(leaf, a, b, c, i);
      AnyOfScoped(leaf, a, b, c, i + 1);
    }
  }

  /** Appending rows of other farms to the table changes no outcome. */
  lemma OtherFarmsIgnored(ctx: Ctx, extra: seq<Row>, c: Condition)
    requires forall x :: x in extra ==> x.farm != ctx.farm
    ensures EvalConditions(ctx.(rows := ctx.rows + extra), c) == EvalConditions(ctx, c)
  {
    WhereAppend(ctx.rows, extra, (x: Row) => x.farm == ctx.farm);
    FarmRowsOfOthers(extra, ctx.farm);
    assert FarmRows(ctx.rows + extra, ctx.farm) == FarmRows(ctx.rows, ctx.farm) + [];
    EvalConditionScoped();
    TreeScoped(EvalCondition, ctx.(rows := ctx.rows + extra), ctx, c);
  }
}

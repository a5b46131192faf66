/**
 * `evaluate_sequence`: the loop that matches the steps of a SEQUENCE group in
 * order, carrying the previous match time and the gap bound in force, and the
 * laws of the sequence outcome it computes.
 */
module SequenceEval {
  import opened Wrappers
  import opened PyJson
  import opened Conditions

  /**
   * The loop of `evaluate_sequence`. Each step asks the store for its earliest
   * match of the last day; a missing match ends the loop with false, and so does
   * a gap since the previous match larger than the `within` bound in force.
   */
  method EvaluateSequence(query: StepQuery, ctx: Ctx, steps: seq<Condition>) returns (r: Outcome)
    ensures r == SequenceOutcome(query, ctx, steps)
  {
    var lastTime: Option<int> := None;
    var maxInterval: Option<Span> := None;
    var i := 0;
    while i < |steps|
      invariant 0 <= i <= |steps|
      invariant SequenceFrom(query, ctx, steps, i, lastTime, maxInterval) == SequenceOutcome(query, ctx, steps)
      decreases |steps| - i
    {
      if i > 0 && WithinOf(steps[i - 1]).Some? {
        maxInterval := WithinOf(steps[i - 1]);
      }
      var found := query(ctx, steps[i]);
      if found.Err? {
        return Raised(found.error);
      }
      if found.value.None? {
        return Value(false);
      }
      var current := found.value.value;
      if lastTime.Some? && BreaksBound(maxInterval, current - lastTime.value) {
        return Value(false);
      }
      lastTime := Some(current);
      i := i + 1;
    }
    return Value(true);
  }

  /**
   * The bound in force for the gap before step `i`: the `within` of the last
   * step before `i` that has one. A step without `within` leaves it unchanged.
   */
  function BoundAt(steps: seq<Condition>, i: nat): (r: Option<Span>)
    requires i <= |steps|
    ensures r.None? <==> forall j :: 0 <= j < i ==> WithinOf(steps[j]).None?
    ensures r.Some? ==> exists j :: 0 <= j < i && WithinOf(steps[j]) == r
                           && forall k :: j < k < i ==> WithinOf(steps[k]).None?
  {
    if i == 0 then None
    else if WithinOf(steps[i - 1]).Some? then WithinOf(steps[i - 1])
    else BoundAt(steps, i - 1)
  }

  /** The bound the loop carries into step `i`: the one in force for step `i - 1`. */
  function Carried(steps: seq<Condition>, i: nat): Option<Span>
    requires i <= |steps|
  {
    if i == 0 then None else BoundAt(steps, i - 1)
  }

  lemma CarriedToNext(steps: seq<Condition>, i: nat)
    requires i < |steps|
    ensures NextBound(steps, i, Carried(steps, i)) == BoundAt(steps, i)
  {
  }

  /** The store has a match for this step. */
  predicate Found(query: StepQuery, ctx: Ctx, step: Condition) {
    query(ctx, step).Ok? && query(ctx, step).value.Some?
  }

  /** The time of a step's earliest match (0 when there is none). */
  function FoundTime(query: StepQuery, ctx: Ctx, step: Condition): (t: int)
    ensures Found(query, ctx, step) ==> query(ctx, step) == Ok(Some(t))
  {
    if Found(query, ctx, step) then query(ctx, step).value.value else 0
  }

  /** Every step from `i` on has a match. */
  predicate FoundFrom(query: StepQuery, ctx: Ctx, steps: seq<Condition>, i: nat) {
    forall k :: i <= k < |steps| ==> Found(query, ctx, steps[k])
  }

  /** The gap from the match of step `k - 1` to that of step `k` respects the bound in force. */
  predicate GapKept(query: StepQuery, ctx: Ctx, steps: seq<Condition>, k: nat)
    requires 1 <= k < |steps|
  {
    !BreaksBound(BoundAt(steps, k), FoundTime(query, ctx, steps[k]) - FoundTime(query, ctx, steps[k - 1]))
  }

  /** Every gap before a step from `i` on respects its bound. */
  predicate GapsKeptFrom(query: StepQuery, ctx: Ctx, steps: seq<Condition>, i: nat) {
    forall k :: i <= k < |steps| && 1 <= k ==> GapKept(query, ctx, steps, k)
  }

  lemma {:induction false} SequenceFromHolds(query: StepQuery, ctx: Ctx, steps: seq<Condition>, i: nat, last: Option<int>)
    requires 1 <= i <= |steps|
    requires Found(query, ctx, steps[i - 1]) && last == Some(FoundTime(query, ctx, steps[i - 1]))
    ensures SequenceFrom(query, ctx, steps, i, last, Carried(steps, i)) == Value(true)
        <==> FoundFrom(query, ctx, steps, i) && GapsKeptFrom(query, ctx, steps, i)
    decreases |steps| - i
  {
    if i < |steps| {
      CarriedToNext(steps, i);
      var next := Some(FoundTime(query, ctx, steps[i]));
      if Found(query, ctx, steps[i]) && !BreaksBound(BoundAt(steps, i), FoundTime(query, ctx, steps[i]) - last.value) {
        assert SequenceFrom(query, ctx, steps, i, last, Carried(steps, i))
            == SequenceFrom(query, ctx, steps, i + 1, next, Carried(steps, i + 1));
        SequenceFromHolds(query, ctx, steps, i + 1, next);
        assert FoundFrom(query, ctx, steps, i) <==> FoundFrom(query, ctx, steps, i + 1);
        assert GapsKeptFrom(query, ctx, steps, i) <==> GapsKeptFrom(query, ctx, steps, i + 1);
      } else {
        assert SequenceFrom(query, ctx, steps, i, last, Carried(steps, i)) != Value(true);
        assert !(FoundFrom(query, ctx, steps, i) && GapKept(query, ctx, steps, i));
      }
    }
  }

  /**
   * Declarative reading of a sequence: it holds iff every step has a match in
   * the last day and every gap between consecutive matches respects the bound
   * in force, i.e. the `within` of the latest earlier step that has one.
   */
  lemma {:induction false} SequenceHolds(query: StepQuery, ctx: Ctx, steps: seq<Condition>)
    ensures SequenceOutcome(query, ctx, steps) == Value(true)
        <==> FoundFrom(query, ctx, steps, 0) && GapsKeptFrom(query, ctx, steps, 0)
  {
    if steps != [] {
      CarriedToNext(steps, 0);
      if Found(query, ctx, steps[0]) {
        var first := Some(FoundTime(query, ctx, steps[0]));
        assert SequenceOutcome(query, ctx, steps) == SequenceFrom(query, ctx, steps, 1, first, Carried(steps, 1));
        SequenceFromHolds(query, ctx, steps, 1, first);
        assert FoundFrom(query, ctx, steps, 0) <==> FoundFrom(query, ctx, steps, 1);
        assert GapsKeptFrom(query, ctx, steps, 0) <==> GapsKeptFrom(query, ctx, steps, 1);
      } else {
        assert !FoundFrom(query, ctx, steps, 0);
      }
    }
  }

  lemma {:induction false} SequenceFromNoFault(query: StepQuery, ctx: Ctx, steps: seq<Condition>, i: nat, last: Option<int>, bound: Option<Span>)
    requires i <= |steps|
    requires forall k :: i <= k < |steps| ==> query(ctx, steps[k]).Ok?
    ensures SequenceFrom(query, ctx, steps, i, last, bound).Value?
    decreases |steps| - i
  {
    if i < |steps| {
      assert query(ctx, steps[i]).Ok?;
      match query(ctx, steps[i])
      case Ok(None) =>
      case Ok(Some(t)) =>
        SequenceFromNoFault(query, ctx, steps, i + 1, Some(t), NextBound(steps, i, bound));
    }
  }

  /** A sequence whose queries all succeed never raises: its outcome is exactly the declarative reading. */
  lemma SequenceWithoutFaults(query: StepQuery, ctx: Ctx, steps: seq<Condition>)
    requires forall k :: 0 <= k < |steps| ==> query(ctx, steps[k]).Ok?
    ensures SequenceOutcome(query, ctx, steps) == Value(FoundFrom(query, ctx, steps, 0) && GapsKeptFrom(query, ctx, steps, 0))
  {
    SequenceFromNoFault(query, ctx, steps, 0, None, None);
    SequenceHolds(query, ctx, steps);
  }

  /** A step the store can query: a leaf with a SQL comparison operator. */
  predicate Queryable(step: Condition) {
    step.Leaf? && WeatherStore.IsSqlComparison(step.op)
  }

  /** The engine's step query fails exactly on the steps it cannot query, each with its exception. */
  lemma StepMatchFaults(ctx: Ctx, step: Condition)
    ensures StepMatch(ctx, step).Ok? <==> Queryable(step)
    ensures step.Group? ==> StepMatch(ctx, step) == Err(KeyError)
    ensures step.Items? ==> StepMatch(ctx, step) == Err(TypeError)
    ensures step.Leaf? && !Queryable(step) ==> StepMatch(ctx, step) == Err(QueryError)
  {
  }

  /** A sequence of comparison leaves never raises in the engine. */
  lemma SequenceOfComparisons(ctx: Ctx, steps: seq<Condition>)
    requires forall k :: 0 <= k < |steps| ==> Queryable(steps[k])
    ensures SequenceOutcome(StepMatch, ctx, steps)
         == Value(FoundFrom(StepMatch, ctx, steps, 0) && GapsKeptFrom(StepMatch, ctx, steps, 0))
  {
    forall k | 0 <= k < |steps|
      ensures StepMatch(ctx, steps[k]).Ok?
    {
      StepMatchFaults(ctx, steps[k]);
    }
    SequenceWithoutFaults(StepMatch, ctx, steps);
  }

  /**
   * A step with no match makes the sequence false, whatever comes after it,
   * once the steps before it matched within their bounds.
   */
  lemma {:induction false} MissingStepFails(query: StepQuery, ctx: Ctx, steps: seq<Condition>, m: nat)
    requires m < |steps| && query(ctx, steps[m]) == Ok(None)
    requires forall k :: 0 <= k < m ==> Found(query, ctx, steps[k])
    requires forall k :: 1 <= k < m ==> GapKept(query, ctx, steps, k)
    ensures SequenceOutcome(query, ctx, steps) == Value(false)
  {
    if m == 0 {
    } else {
      CarriedToNext(steps, 0);
      var first := Some(FoundTime(query, ctx, steps[0]));
      assert SequenceOutcome(query, ctx, steps) == SequenceFrom(query, ctx, steps, 1, first, Carried(steps, 1));
      MissingFrom(query, ctx, steps, 1, first, m);
    }
  }

  lemma {:induction false} MissingFrom(query: StepQuery, ctx: Ctx, steps: seq<Condition>, i: nat, last: Option<int>, m: nat)
    requires 1 <= i <= m < |steps| && query(ctx, steps[m]) == Ok(None)
    requires Found(query, ctx, steps[i - 1]) && last == Some(FoundTime(query, ctx, steps[i - 1]))
    requires forall k :: i <= k < m ==> Found(query, ctx, steps[k])
    requires forall k :: i <= k < m ==> GapKept(query, ctx, steps, k)
    ensures SequenceFrom(query, ctx, steps, i, last, Carried(steps, i)) == Value(false)
    decreases m - i
  {
    CarriedToNext(steps, i);
    if i < m {
      assert Found(query, ctx, steps[i]) && GapKept(query, ctx, steps, i);
      var next := Some(FoundTime(query, ctx, steps[i]));
      assert SequenceFrom(query, ctx, steps, i, last, Carried(steps, i))
          == SequenceFrom(query, ctx, steps, i + 1, next, Carried(steps, i + 1));
      MissingFrom(query, ctx, steps, i + 1, next, m);
    }
  }

  /**
   * The gap check compares the minutes between matches with the bare leading
   * number of the bound: the first match never meets a bound, an empty
   * `within` switches the bound off, a negative (out-of-order) gap passes any
   * non-negative bound, and the unit is ignored, so "2 hours" allows 2 minutes.
   */
  lemma GapCheck(gap: int, amount: real, unit: string)
    ensures !BreaksBound(None, gap) && !BreaksBound(Some(Blank), gap)
    ensures gap <= 0 && amount >= 0.0 ==> !BreaksBound(Some(Quantity(amount, unit)), gap)
    ensures BreaksBound(Some(Quantity(2.0, "hours")), 3)
    ensures BreaksBound(Some(Quantity(amount, unit)), gap) <==> gap as real > amount
  {
  }

  /**
   * Two steps, the first bounded by "60 minutes": a second match 90 minutes
   * after the first fails, 30 minutes after passes, and 30 minutes before it
   * passes too, since the order of the matches is not checked.
   */
  lemma {:induction false} TwoStepExample(query: StepQuery, ctx: Ctx, first: Condition, second: Condition, t: int, u: int)
    requires first.Leaf? && first.within == Some(Quantity(60.0, "minutes"))
    requires query(ctx, first) == Ok(Some(t)) && query(ctx, second) == Ok(Some(u))
    ensures u == t + 90 ==> SequenceOutcome(query, ctx, [first, second]) == Value(false)
    ensures u == t + 30 ==> SequenceOutcome(query, ctx, [first, second]) == Value(true)
    ensures u == t - 30 ==> SequenceOutcome(query, ctx, [first, second]) == Value(true)
  {
    var steps := [first, second];
    assert BoundAt(steps, 1) == Some(Quantity(60.0, "minutes"));
    assert Found(query, ctx, steps[0]) && Found(query, ctx, steps[1]);
    assert FoundTime(query, ctx, steps[1]) - FoundTime(query, ctx, steps[0]) == u - t;
    assert FoundFrom(query, ctx, steps, 0);
    assert GapsKeptFrom(query, ctx, steps, 0) <==> GapKept(query, ctx, steps, 1);
    SequenceWithoutFaults(query, ctx, steps);
  }
}

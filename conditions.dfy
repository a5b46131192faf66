/**
 * The rule-condition language of the rule engine and its evaluator
 * (`evaluate_condition`, `evaluate_sequence`, `evaluate_conditions`).
 *
 * A condition is a leaf comparison on one metric, a group (AND / OR / NOT /
 * SEQUENCE, or any other operator, which evaluates to false), or a bare list,
 * which the engine reads as an AND of leaves. Evaluation either yields a
 * boolean or raises the Python exception the source would raise, which aborts
 * the whole invocation.
 */
module Conditions {
  import opened Wrappers
  import opened PyJson
  import opened PyInt
  import opened WeatherStore

  /** A duration text "<amount> <unit>" such as "30 minutes", or the empty text. */
  datatype Span = Blank | Quantity(amount: real, unit: string)

  /** The `temporal` object of a leaf; `None` for a missing or empty one (both are falsy). */
  datatype Temporal = Temporal(duration: Option<Span>, interval: Option<Span>, day1: Option<string>, day2: Option<string>)

  datatype Condition =
    | Leaf(metric: Metric, op: string, value: real, temporal: Option<Temporal>, within: Option<Span>)
    | Group(op: string, subs: seq<Condition>)
    | Items(elems: seq<Condition>)

  /** The result of evaluating a condition: a boolean, or the exception raised. */
  datatype Outcome = Value(holds: bool) | Raised(error: PyError)

  /**
   * What a condition is evaluated against: one table, the farm, the current
   * time in minutes, and the evaluation snapshot (the latest row's readings).
   */
  datatype Ctx = Ctx(rows: seq<Row>, farm: string, now: int, snapshot: map<Metric, real>)

  /** The look-back of the sequence queries (`INTERVAL '1 day'`). */
  const SequenceLookback: int := MinutesPerDay

  /** `NOW() - INTERVAL '1 day'`: a sequence step only sees rows after this minute. */
  function SequenceStart(now: int): int {
    now - SequenceLookback
  }

  // ---------------------------------------------------------------- spans

  /** `float(text.split()[0])`: the leading number of a duration text. */
  function LeadingNumber(s: Span): (r: Result<real, PyError>)
    ensures r.Err? <==> s.Blank?
    ensures s.Quantity? ==> r == Ok(s.amount)
  {
    match s
    case Blank => Err(IndexError)
    case Quantity(a, _) => Ok(a)
  }

  /** `'minute' in text`. */
  predicate MentionsMinute(s: Span) {
    s.Quantity? && ContainsText(s.unit, "minute")
  }

  /**
   * The length in hours that `RATE>` gives an interval text:
   * the leading number divided by 60 when the text mentions "minute", else the number itself.
   */
  function IntervalHours(s: Span): (r: Result<real, PyError>)
    ensures r.Err? <==> s.Blank?
    ensures r.Ok? && MentionsMinute(s) ==> r.value * 60.0 == s.amount
    ensures r.Ok? && !MentionsMinute(s) ==> r.value == s.amount
  {
    match LeadingNumber(s)
    case Err(e) => Err(e)
    case Ok(n) => Ok(if MentionsMinute(s) then n / 60.0 else n)
  }

  /** How the store's interval parser reads a duration text, in minutes; `None` when it rejects it. */
  function PgMinutes(s: Span): (r: Option<real>)
    ensures s.Blank? ==> r.None?
    ensures s.Quantity? && s.unit in {"minute", "minutes"} ==> r == Some(s.amount)
    ensures s.Quantity? && s.unit in {"hour", "hours"} ==> r == Some(s.amount * 60.0)
    ensures s.Quantity? && s.unit in {"second", "seconds"} ==> r == Some(s.amount / 60.0)
    ensures s.Quantity? && s.unit in {"day", "days"} ==> r == Some(s.amount * 1440.0)
    ensures s.Quantity? && s.unit in {"week", "weeks"} ==> r == Some(s.amount * 10080.0)
  {
    match s
    case Blank => None
    case Quantity(a, u) =>
      if u in {"second", "seconds"} then Some(a / 60.0)
      else if u in {"minute", "minutes"} then Some(a)
      else if u in {"hour", "hours"} then Some(a * 60.0)
      else if u in {"day", "days"} then Some(a * 1440.0)
      else if u in {"week", "weeks"} then Some(a * 10080.0)
      else None
  }

  // ---------------------------------------------------------------- day tokens

  /** The text before the first '_' (all of it when there is none). */
  function BeforeUnderscore(s: string): (r: string)
    ensures |r| <= |s| && r == s[..|r|]
    ensures '_' !in r
    ensures |r| < |s| ==> s[|r|] == '_'
  {
    if s == [] || s[0] == '_' then [] else [s[0]] + BeforeUnderscore(s[1..])
  }

  /** `token.split('_')[1]`: `None` (an IndexError) when the token holds no '_'. */
  function SecondField(token: string): (r: Option<string>)
    ensures r.Some? <==> '_' in token
  {
    var head := BeforeUnderscore(token);
    if |head| == |token| then
      assert token == head;
      None
    else
      assert token[|head|] in token;
      Some(BeforeUnderscore(token[|head| + 1..]))
  }

  /** The day offset a token names: "today" 0, "tomorrow" 1, "<word>_<n>" n. */
  function ResolveDay(token: string): (r: Result<int, PyError>)
    ensures token == "today" ==> r == Ok(0)
    ensures token == "tomorrow" ==> r == Ok(1)
    ensures token != "today" && token != "tomorrow" && '_' !in token ==> r == Err(IndexError)
  {
    if token == "today" then Ok(0)
    else if token == "tomorrow" then Ok(1)
    else
      match SecondField(token)
      case None => Err(IndexError)
      case Some(f) =>
        (match ParseInt(f)
         case None => Err(ValueError)
         case Some(n) => Ok(n))
  }

  /** Minute 00:00 of the calendar day `offset` days after the day of `now`. */
  function DayStart(now: int, offset: int): int {
    (now / MinutesPerDay + offset) * MinutesPerDay
  }

  /** Minute 23:59 of that day; the day is `[DayStart, DayEnd]` inclusive. */
  function DayEnd(now: int, offset: int): int {
    DayStart(now, offset) + MinutesPerDay - 1
  }

  // ---------------------------------------------------------------- leaves

  /** The comparison an instant leaf applies: only `>`, `<` and `=` are recognised. */
  predicate IsInstantOperator(op: string) {
    op == ">" || op == "<" || op == "="
  }

  /** `RATE>` on the two newest rows: the change per hour between them against value per interval. */
  function RateOutcome(newer: Row, older: Row, metric: Metric, value: real, interval: Span): (r: Outcome) {
    if metric !in newer.readings || metric !in older.readings then Raised(TypeError)
    else
      var hours := (newer.time - older.time) as real / 60.0;
      var change := newer.readings[metric] - older.readings[metric];
      var rate := if hours != 0.0 then change / hours else 0.0;
      match IntervalHours(interval)
      case Err(e) => Raised(e)
      case Ok(h) => if h == 0.0 then Raised(ZeroDivisionError) else Value(rate > value / h)
  }

  /** `RATE>`: the rate of change between the two newest rows against value per interval. */
  function EvalRate(ctx: Ctx, leaf: Condition): (r: Outcome)
    requires leaf.Leaf?
  {
    match leaf.temporal
    case None => Raised(KeyError)
    case Some(t) =>
      match t.interval
      case None => Raised(KeyError)
      case Some(iv) =>
        var top := LatestTwo(ctx.rows, ctx.farm, ctx.now);
        if |top| < 2 then Value(false)
        else RateOutcome(top[0], top[1], leaf.metric, leaf.value, iv)
  }

  /** `SELECT AVG(metric)` over the calendar day `offset` days after the day of now. */
  function DayAverage(ctx: Ctx, metric: Metric, offset: int): Option<real> {
    AverageBetween(ctx.rows, ctx.farm, metric, DayStart(ctx.now, offset), DayEnd(ctx.now, offset))
  }

  /** `DAY_DIFF>` once both day offsets are known: the average on day2 minus the one on day1, against value. */
  function DayDiffOutcome(ctx: Ctx, metric: Metric, value: real, offset1: int, offset2: int): Outcome {
    match DayAverage(ctx, metric, offset1)
    case None => Value(false)
    case Some(avg1) =>
      match DayAverage(ctx, metric, offset2)
      case None => Value(false)
      case Some(avg2) => Value(avg2 - avg1 > value)
  }

  /** `DAY_DIFF>`: both day tokens are resolved (day1 first) before either average is read. */
  function EvalDayDiff(ctx: Ctx, leaf: Condition): (r: Outcome)
    requires leaf.Leaf?
  {
    match leaf.temporal
    case None => Raised(KeyError)
    case Some(t) =>
      if t.day1.None? || t.day2.None? then Raised(KeyError)
      else
        match ResolveDay(t.day1.value)
        case Err(e) => Raised(e)
        case Ok(o1) =>
          match ResolveDay(t.day2.value)
          case Err(e) => Raised(e)
          case Ok(o2) => DayDiffOutcome(ctx, leaf.metric, leaf.value, o1, o2)
  }

  /** A temporal `>`, `<` or `=`: does any row of the farm in the trailing window match? */
  function EvalWindow(ctx: Ctx, leaf: Condition): (r: Outcome)
    requires leaf.Leaf? && leaf.temporal.Some? && IsInstantOperator(leaf.op)
  {
    match leaf.temporal.value.duration
    case None => Raised(KeyError)
    case Some(d) =>
      match PgMinutes(d)
      case None => Raised(QueryError)
      case Some(minutes) =>
        Value(CountMatching(ctx.rows, ctx.farm, leaf.metric, leaf.op, leaf.value, ctx.now as real - minutes) > 0)
  }

  /** A comparison against the evaluation snapshot. */
  function EvalInstant(ctx: Ctx, leaf: Condition): (r: Outcome)
    requires leaf.Leaf?
  {
    if leaf.metric !in ctx.snapshot then Value(false)
    else
      var latest := ctx.snapshot[leaf.metric];
      if leaf.op == ">" then Value(latest > leaf.value)
      else if leaf.op == "<" then Value(latest < leaf.value)
      else if leaf.op == "=" then Value(latest == leaf.value)
      else Value(false)
  }

  /**
   * `evaluate_condition`: the four strategies in the source's order. Applied
   * to a group (which happens inside a bare list) it reads the group's
   * operator as a leaf operator and finds no metric; applied to a list it
   * fails, since a list has no `.get`.
   */
  function EvalCondition(ctx: Ctx, c: Condition): (r: Outcome) {
    match c
    case Leaf(_, op, _, temporal, _) =>
      if op == "RATE>" then EvalRate(ctx, c)
      else if op == "DAY_DIFF>" then EvalDayDiff(ctx, c)
      else if temporal.Some? && IsInstantOperator(op) then EvalWindow(ctx, c)
      else EvalInstant(ctx, c)
    case Group(op, _) =>
      if op == "RATE>" || op == "DAY_DIFF>" then Raised(KeyError) else Value(false)
    case Items(_) => Raised(AttributeError)
  }

  // ---------------------------------------------------------------- sequences

  /** `'within' in step` and the value it holds; only a leaf has keys to test. */
  function WithinOf(step: Condition): Option<Span> {
    if step.Leaf? then step.within else None
  }

  /**
   * The query a sequence step sends through the cursor: `Ok(Some(t))` for the
   * earliest matching time, `Ok(None)` for no row, or the exception raised.
   */
  type StepQuery = (Ctx, Condition) -> Result<Option<int>, PyError>

  /**
   * The engine's step query: the time of the earliest row of the last day that
   * matches the step. A group has no `metric` (KeyError), a list cannot be
   * indexed by a string (TypeError), and an operator that is not a SQL
   * comparison makes the database reject the query.
   */
  function StepMatch(ctx: Ctx, step: Condition): Result<Option<int>, PyError> {
    match step
    case Leaf(metric, op, value, _, _) =>
      if IsSqlComparison(op) then Ok(EarliestMatch(ctx.rows, ctx.farm, metric, op, value, SequenceStart(ctx.now)))
      else Err(QueryError)
    case Group(_, _) => Err(KeyError)
    case Items(_) => Err(TypeError)
  }

  /** The bound in force for step `i`: the previous step's `within` if it has one, else the one before. */
  function NextBound(steps: seq<Condition>, i: nat, bound: Option<Span>): Option<Span>
    requires i < |steps|
  {
    if i > 0 && WithinOf(steps[i - 1]).Some? then WithinOf(steps[i - 1]) else bound
  }

  /** Does a gap of `gap` minutes break the bound in force? An empty bound is falsy and never does. */
  predicate BreaksBound(bound: Option<Span>, gap: int) {
    bound.Some? && bound.value.Quantity? && gap as real > bound.value.amount
  }

  /** The outcome of `evaluate_sequence` from step `i` on, in the state the loop carries. */
  function SequenceFrom(query: StepQuery, ctx: Ctx, steps: seq<Condition>, i: nat, last: Option<int>, bound: Option<Span>): (r: Outcome)
    requires i <= |steps|
    decreases |steps| - i
  {
    if i == |steps| then Value(true)
    else
      var b := NextBound(steps, i, bound);
      match query(ctx, steps[i])
      case Err(e) => Raised(e)
      case Ok(None) => Value(false)
      case Ok(Some(t)) =>
        if last.Some? && BreaksBound(b, t - last.value) then Value(false)
        else SequenceFrom(query, ctx, steps, i + 1, Some(t), b)
  }

  function SequenceOutcome(query: StepQuery, ctx: Ctx, steps: seq<Condition>): Outcome {
    SequenceFrom(query, ctx, steps, 0, None, None)
  }

  // ---------------------------------------------------------------- the tree

  /**
   * A leaf evaluator. The tree walker below is written once for any of them;
   * the engine runs it with `EvalCondition` (see `EvalConditions`), and the
   * laws of the combinators are proved for every leaf evaluator.
   */
  type LeafEval = (Ctx, Condition) -> Outcome

  /** The nodes a combinator iterates over: a list's items, a group's `sub_conditions`, none for a leaf. */
  function Children(c: Condition): seq<Condition> {
    match c
    case Leaf(_, _, _, _, _) => []
    case Group(_, subs) => subs
    case Items(elems) => elems
  }

  /** The operator `evaluate_conditions` dispatches on for a dict node. */
  function GroupOperator(c: Condition): string
    requires !c.Items?
  {
    match c
    case Leaf(_, op, _, _, _) => op
    case Group(op, _) => op
  }

  function Negate(o: Outcome): (r: Outcome)
    ensures o.Raised? ==> r == o
    ensures o.Value? ==> r == Value(!o.holds)
  {
    match o
    case Value(b) => Value(!b)
    case Raised(e) => Raised(e)
  }

  /**
   * `evaluate_conditions` over the leaf evaluator `leaf`: a bare list is the
   * AND of its items as leaves; a dict dispatches on its operator, with
   * `sub_conditions` defaulting to empty.
   */
  function EvalTree(leaf: LeafEval, ctx: Ctx, c: Condition): (r: Outcome)
    decreases c, 1, 0
  {
    if c.Items? then AllOf(leaf, ctx, c, 0)
    else
      var op := GroupOperator(c);
      if op == "AND" then AllOf(leaf, ctx, c, 0)
      else if op == "OR" then AnyOf(leaf, ctx, c, 0)
      else if op == "NOT" then
        (match c
         case Group(_, subs) => if subs == [] then Raised(IndexError) else Negate(EvalTree(leaf, ctx, subs[0]))
         case Leaf(_, _, _, _, _) => Raised(IndexError))
      else if op == "SEQUENCE" then SequenceOutcome(StepMatch, ctx, Children(c))
      else Value(false)
  }

  /** How a group evaluates a child: as a leaf iff it has a metric, else as a tree. */
  function Dispatch(leaf: LeafEval, ctx: Ctx, d: Condition): (r: Outcome)
    decreases d, 2, 0
  {
    if d.Leaf? then leaf(ctx, d) else EvalTree(leaf, ctx, d)
  }

  /** The outcome of child `i`: every item of a bare list goes to the leaf evaluator. */
  function ChildOutcome(leaf: LeafEval, ctx: Ctx, c: Condition, i: nat): (r: Outcome)
    requires i < |Children(c)|
    decreases c, 0, 0
  {
    match c
    case Items(elems) => leaf(ctx, elems[i])
    case Group(_, subs) => Dispatch(leaf, ctx, subs[i])
  }

  /** `all(...)` over the children from `i` on: stops at the first false or raise. */
  function AllOf(leaf: LeafEval, ctx: Ctx, c: Condition, i: nat): (r: Outcome)
    requires i <= |Children(c)|
    decreases c, 0, |Children(c)| - i + 1
  {
    if i == |Children(c)| then Value(true)
    else
      match ChildOutcome(leaf, ctx, c, i)
      case Raised(e) => Raised(e)
      case Value(b) => if b then AllOf(leaf, ctx, c, i + 1) else Value(false)
  }

  /** `any(...)` over the children from `i` on: stops at the first true or raise. */
  function AnyOf(leaf: LeafEval, ctx: Ctx, c: Condition, i: nat): (r: Outcome)
    requires i <= |Children(c)|
    decreases c, 0, |Children(c)| - i + 1
  {
    if i == |Children(c)| then Value(false)
    else
      match ChildOutcome(leaf, ctx, c, i)
      case Raised(e) => Raised(e)
      case Value(b) => if b then Value(true) else AnyOf(leaf, ctx, c, i + 1)
  }

  /** The engine's `evaluate_conditions`: the tree walker over `evaluate_condition`. */
  function EvalConditions(ctx: Ctx, c: Condition): Outcome {
    EvalTree(EvalCondition, ctx, c)
  }
}

/**
 * What `evaluate_condition` computes for each strategy, stated in terms of
 * the rows it looks at, and how the day tokens of `DAY_DIFF>` resolve.
 */
module LeafFacts {
  import opened Wrappers
  import opened PyJson
  import opened PyInt
  import opened WeatherStore
  import opened Conditions

  // ---------------------------------------------------------------- instant and window

  /** Without `RATE>`, `DAY_DIFF>` or a window, a leaf compares the snapshot; only `>`, `<`, `=` can hold. */
  lemma InstantCompare(ctx: Ctx, leaf: Condition)
    requires leaf.Leaf? && leaf.op != "RATE>" && leaf.op != "DAY_DIFF>"
    requires !(leaf.temporal.Some? && IsInstantOperator(leaf.op))
    ensures EvalCondition(ctx, leaf) ==
            Value(leaf.metric in ctx.snapshot && IsInstantOperator(leaf.op)
                  && SqlCompare(leaf.op, ctx.snapshot[leaf.metric], leaf.value))
  {
  }

  /** Operators other than `>`, `<`, `=`, `RATE>`, `DAY_DIFF>` never hold, with or without `temporal`. */
  lemma OtherLeafOperatorsFalse(ctx: Ctx, leaf: Condition)
    requires leaf.Leaf? && leaf.op !in {">", "<", "=", "RATE>", "DAY_DIFF>"}
    ensures EvalCondition(ctx, leaf) == Value(false)
  {
  }

  /** A windowed `>`, `<`, `=` holds iff some row of this farm inside the window matches. */
  lemma WindowedCount(ctx: Ctx, leaf: Condition)
    requires leaf.Leaf? && leaf.temporal.Some? && IsInstantOperator(leaf.op)
    ensures leaf.temporal.value.duration.None? ==> EvalCondition(ctx, leaf) == Raised(KeyError)
    ensures leaf.temporal.value.duration.Some? && PgMinutes(leaf.temporal.value.duration.value).None? ==>
              EvalCondition(ctx, leaf) == Raised(QueryError)
    ensures leaf.temporal.value.duration.Some? && PgMinutes(leaf.temporal.value.duration.value).Some? ==>
              EvalCondition(ctx, leaf) ==
              Value(exists x :: (x in ctx.rows && x.farm == ctx.farm
                    && x.time as real > ctx.now as real - PgMinutes(leaf.temporal.value.duration.value).value
                    && SqlMatches(x, leaf.metric, leaf.op, leaf.value)))
  {
  }

  // ---------------------------------------------------------------- RATE>

  /** `RATE>` with fewer than two rows of the farm at or before now is false. */
  lemma RateNeedsTwoRows(ctx: Ctx, leaf: Condition)
    requires leaf.Leaf? && leaf.op == "RATE>"
    requires leaf.temporal.Some? && leaf.temporal.value.interval.Some?
    requires |UpTo(ctx.rows, ctx.farm, ctx.now)| < 2
    ensures EvalCondition(ctx, leaf) == Value(false)
  {
  }

  /** With two rows of the farm at or before now, `RATE>` is decided by those two rows alone. */
  lemma RateOnNewestTwo(ctx: Ctx, leaf: Condition)
    requires leaf.Leaf? && leaf.op == "RATE>"
    requires leaf.temporal.Some? && leaf.temporal.value.interval.Some?
    requires |LatestTwo(ctx.rows, ctx.farm, ctx.now)| == 2
    ensures EvalCondition(ctx, leaf) ==
            RateOutcome(LatestTwo(ctx.rows, ctx.farm, ctx.now)[0], LatestTwo(ctx.rows, ctx.farm, ctx.now)[1],
                        leaf.metric, leaf.value, leaf.temporal.value.interval.value)
  {
  }

  /** Comparing a change per `elapsed` hours with a threshold per `hours`, without division. */
  lemma RateComparison(change: real, elapsed: real, value: real, hours: real)
    requires elapsed > 0.0 && hours > 0.0
    ensures change / elapsed > value / hours <==> change * hours > value * elapsed
  {
    var rate := change / elapsed;
    var expected := value / hours;
    assert rate * elapsed == change;
    assert expected * hours == value;
    var scale := elapsed * hours;
    assert scale > 0.0;
    assert rate > expected <==> rate * scale > expected * scale;
    assert rate * scale == change * hours;
    assert expected * scale == value * elapsed;
  }

  /**
   * `RATE>` between two samples `elapsed` hours apart holds iff the change
   * per hour exceeds `value` per `hours`: `change * hours > value * elapsed`.
   */
  lemma RateOfChange(newer: Row, older: Row, metric: Metric, value: real, interval: Span, hours: real)
    requires metric in newer.readings && metric in older.readings
    requires newer.time > older.time
    requires IntervalHours(interval) == Ok(hours) && hours > 0.0
    ensures RateOutcome(newer, older, metric, value, interval) ==
            Value((newer.readings[metric] - older.readings[metric]) * hours
                  > value * ((newer.time - older.time) as real / 60.0))
  {
    var change := newer.readings[metric] - older.readings[metric];
    var elapsed := (newer.time - older.time) as real / 60.0;
    RateComparison(change, elapsed, value, hours);
  }

  /** Two samples with the same time stamp give a rate of zero. */
  lemma RateOfSimultaneousRows(newer: Row, older: Row, metric: Metric, value: real, interval: Span, hours: real)
    requires metric in newer.readings && metric in older.readings
    requires newer.time == older.time
    requires IntervalHours(interval) == Ok(hours) && hours != 0.0
    ensures RateOutcome(newer, older, metric, value, interval) == Value(0.0 > value / hours)
  {
  }

  /** The faults on two samples: a NULL reading, an empty interval text, a zero interval. */
  lemma RateSampleFaults(newer: Row, older: Row, metric: Metric, value: real, interval: Span)
    ensures metric !in newer.readings || metric !in older.readings ==>
              RateOutcome(newer, older, metric, value, interval) == Raised(TypeError)
    ensures metric in newer.readings && metric in older.readings && interval.Blank? ==>
              RateOutcome(newer, older, metric, value, interval) == Raised(IndexError)
    ensures metric in newer.readings && metric in older.readings && IntervalHours(interval) == Ok(0.0) ==>
              RateOutcome(newer, older, metric, value, interval) == Raised(ZeroDivisionError)
  {
  }

  /** The faults before any sample is read: no `temporal` or no `interval`. */
  lemma RateFaults(ctx: Ctx, leaf: Condition)
    requires leaf.Leaf? && leaf.op == "RATE>"
    ensures leaf.temporal.None? || leaf.temporal.value.interval.None? ==> EvalCondition(ctx, leaf) == Raised(KeyError)
  {
  }

  /** The two worked `RATE>` cases: 10 then 8 an hour apart against 1 per 30 minutes is false; 12 then 8 is true. */
  lemma RateWorkedExamples(newer: Row, older: Row, metric: Metric)
    requires newer.time == older.time + 60
    requires metric in older.readings && older.readings[metric] == 8.0
    requires metric in newer.readings && (newer.readings[metric] == 10.0 || newer.readings[metric] == 12.0)
    ensures RateOutcome(newer, older, metric, 1.0, Quantity(30.0, "minutes")) == Value(newer.readings[metric] == 12.0)
  {
    assert "minutes"[..6] == "minute";
    assert MentionsMinute(Quantity(30.0, "minutes"));
    assert IntervalHours(Quantity(30.0, "minutes")) == Ok(0.5);
    RateOfChange(newer, older, metric, 1.0, Quantity(30.0, "minutes"), 0.5);
  }

  // ---------------------------------------------------------------- DAY_DIFF>

  /** The window of a day offset is exactly the minutes whose day index is today's plus the offset. */
  lemma DayWindowIsCalendarDay(now: int, offset: int, t: int)
    ensures DayStart(now, offset) <= t <= DayEnd(now, offset) <==> t / MinutesPerDay == now / MinutesPerDay + offset
  {
    var d := now / MinutesPerDay + offset;
    var q := t / MinutesPerDay;
    assert t == q * MinutesPerDay + t % MinutesPerDay;
    if q < d {
      assert q * MinutesPerDay <= (d - 1) * MinutesPerDay;
    } else if q > d {
      assert q * MinutesPerDay >= (d + 1) * MinutesPerDay;
    }
  }

  /** The average of a day is NULL iff no row of the farm on that calendar day has a reading. */
  lemma DayAverageOf(ctx: Ctx, metric: Metric, offset: int)
    ensures DayAverage(ctx, metric, offset).None? <==>
            forall x :: x in ctx.rows && x.farm == ctx.farm && x.time / MinutesPerDay == ctx.now / MinutesPerDay + offset
              ==> metric !in x.readings
  {
    forall t: int
      ensures DayStart(ctx.now, offset) <= t <= DayEnd(ctx.now, offset) <==> t / MinutesPerDay == ctx.now / MinutesPerDay + offset
    {
      DayWindowIsCalendarDay(ctx.now, offset, t);
    }
  }

  /** `DAY_DIFF>` once resolved: false when either day has no reading, else the difference of the averages. */
  lemma DayDiff(ctx: Ctx, metric: Metric, value: real, o1: int, o2: int)
    ensures DayAverage(ctx, metric, o1).None? || DayAverage(ctx, metric, o2).None? ==>
              DayDiffOutcome(ctx, metric, value, o1, o2) == Value(false)
    ensures DayAverage(ctx, metric, o1).Some? && DayAverage(ctx, metric, o2).Some? ==>
              DayDiffOutcome(ctx, metric, value, o1, o2) ==
              Value(DayAverage(ctx, metric, o2).value - DayAverage(ctx, metric, o1).value > value)
  {
  }

  /** A `DAY_DIFF>` leaf whose two tokens resolve is decided by the two day averages. */
  lemma DayDiffResolved(ctx: Ctx, leaf: Condition, o1: int, o2: int)
    requires leaf.Leaf? && leaf.op == "DAY_DIFF>"
    requires leaf.temporal.Some? && leaf.temporal.value.day1.Some? && leaf.temporal.value.day2.Some?
    requires ResolveDay(leaf.temporal.value.day1.value) == Ok(o1)
    requires ResolveDay(leaf.temporal.value.day2.value) == Ok(o2)
    ensures EvalCondition(ctx, leaf) == DayDiffOutcome(ctx, leaf.metric, leaf.value, o1, o2)
  {
  }

  /** The `DAY_DIFF>` faults: a missing day key, or a token that does not resolve. */
  lemma DayDiffFaults(ctx: Ctx, leaf: Condition)
    requires leaf.Leaf? && leaf.op == "DAY_DIFF>"
    ensures leaf.temporal.None? ==> EvalCondition(ctx, leaf) == Raised(KeyError)
    ensures leaf.temporal.Some? && (leaf.temporal.value.day1.None? || leaf.temporal.value.day2.None?) ==>
              EvalCondition(ctx, leaf) == Raised(KeyError)
    ensures leaf.temporal.Some? && leaf.temporal.value.day1.Some? && leaf.temporal.value.day2.Some? &&
            ResolveDay(leaf.temporal.value.day1.value).Err? ==>
              EvalCondition(ctx, leaf) == Raised(ResolveDay(leaf.temporal.value.day1.value).error)
    ensures leaf.temporal.Some? && leaf.temporal.value.day1.Some? && leaf.temporal.value.day2.Some? &&
            ResolveDay(leaf.temporal.value.day1.value).Ok? && ResolveDay(leaf.temporal.value.day2.value).Err? ==>
              EvalCondition(ctx, leaf) == Raised(ResolveDay(leaf.temporal.value.day2.value).error)
  {
  }

  // ---------------------------------------------------------------- day tokens

  lemma {:induction false} BeforeUnderscoreOf(a: string, b: string)
    requires '_' !in a
    requires b == [] || b[0] == '_'
    ensures BeforeUnderscore(a + b) == a
  {
    if a == [] {
      assert a + b == b;
    } else {
      assert a[0] in a;
      assert (a + b)[1..] == a[1..] + b;
      BeforeUnderscoreOf(a[1..], b);
    }
  }

  lemma NoUnderscoreInShow(n: int)
    ensures '_' !in Show(n)
  {
    var s := Show(n);
    forall i | 0 <= i < |s|
      ensures s[i] != '_'
    {
      if n < 0 && i > 0 {
        assert s[i] == ShowNat(-n)[i - 1];
      } else if n >= 0 {
        assert IsDigit(ShowNat(n)[i]);
      }
    }
  }

  /** The field after the first '_' of "<word>_<field>..." is `field` when neither holds a '_'. */
  lemma SecondFieldOf(word: string, field: string, rest: string)
    requires '_' !in word && '_' !in field
    requires rest == [] || rest[0] == '_'
    ensures SecondField(word + "_" + field + rest) == Some(field)
  {
    var token := word + "_" + field + rest;
    assert token == word + ("_" + field + rest);
    BeforeUnderscoreOf(word, "_" + field + rest);
    assert token[|word| + 1..] == field + rest;
    BeforeUnderscoreOf(field, rest);
  }

  /** A token "<word>_<n>" (with anything after a further '_') names the offset n. */
  lemma ResolveNumberedDay(word: string, n: int, rest: string)
    requires '_' !in word
    requires rest == [] || rest[0] == '_'
    ensures ResolveDay(word + "_" + Show(n) + rest) == Ok(n)
  {
    var token := word + "_" + Show(n) + rest;
    assert token[|word|] == '_';
    NoUnderscoreInShow(n);
    SecondFieldOf(word, Show(n), rest);
    ParseShow(n);
    assert token != "today" && token != "tomorrow" by {
      assert '_' in token && '_' !in "today" && '_' !in "tomorrow";
    }
  }
}

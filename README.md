# Weather rule engine: a Dafny model

This project models two parts of a farm weather-alerting system.

- **The rule engine.** It evaluates stored alert rules against the weather tables of one farm. A rule's `conditions` form a tree:
  - leaf comparisons on a metric: an instant comparison against the latest snapshot, a count over a trailing time window, a rate of change between the two newest rows (`RATE>`), or a difference of two daily averages (`DAY_DIFF>`);
  - groups `AND`, `OR`, `NOT` and `SEQUENCE`, where a sequence asks that every step have a matching row later than one day before now (future forecast rows included), each match within a bound of the previous step's match;
  - bare lists, read as a conjunction.

  The handler sorts a farm's rules by priority and evaluates the rules whose data type matches. For each rule that triggers, it sends the rule's email actions, records the rule in `triggered_actions`, and stops after the first triggered rule whose `stop_on_match` holds. Its JSON encoder writes integral `Decimal`s as integers and other `Decimal`s as floats.
- **The rule validator.** `validate_rule` checks a rule definition before it is stored. It runs a historical-test guard, then checks the required fields, the data type, the priority range, the condition tree, the actions and `stop_on_match`. The first failure is the one reported. The same function exists twice in the repository with identical text, in `Dynamo_Rule_Define/lambda_function.py` and `lambda/lambda_function.py`. It is modelled once, and the rows below cite either copy.

## How it is modelled

- JSON values are a `Json` datatype (`pyjson.dfy`). Python's `in`, `[]`, `.get` and iteration are written out on it:
  - a dict tests keys and a list tests elements;
  - a string tests substrings;
  - anything else raises `TypeError`.

  `int()` on strings, floats and booleans is modelled too (`pyint.dfy`).
- Python exceptions are modelled as values, not preconditions:
  - a condition evaluates to `Value(b)` or to `Raised(e)`;
  - the validator returns `Ok(verdict)` or `Err(e)`;
  - the handler turns any exception into a status-500 response.

  Conditions come from the rule store rather than from the caller, and `all`/`any` short-circuit. So whether an exception happens depends on the data and on whether evaluation reaches the faulty node, and a precondition cannot express that.
- The two weather tables are sequences of rows (`store.dfy`). Time is a whole number of minutes, and a calendar day is `time / 1440`. Each SQL query of the engine is a function on the rows: `LatestTwo`, `CountMatching`, `EarliestMatch`, `AverageBetween` and `Latest`. SQL `NULL` is a missing reading.
- The loops of the handler are methods proved equal to reference functions:
  - `SequenceEval.EvaluateSequence` for `evaluate_sequence`;
  - `RuleDispatch.DispatchRules` for the rules loop;
  - `RuleDispatch.SendAlerts` for the actions loop;
  - `RuleDispatch.LambdaHandler` for the handler.

  Lemmas then relate those functions to declarative readings.
- The tree walker is written once for any leaf evaluator. The engine instantiates it with `Conditions.EvalCondition`. The laws of `AND`, `OR`, `NOT`, lists and empty groups are proved for every leaf evaluator.
- The sequence walker is likewise generic in the query a step sends. The engine instantiates it with `Conditions.StepMatch`.

## Model

| member | source | states |
|---|---|---|
| PyJson.PyIn | Dynamo_Rule_Define/lambda_function.py:51-52 | `k in v`: key test on a dict, element test on a list, text test on a string, `TypeError` otherwise |
| PyJson.ContainsTextIff | lambda/Lambda_Ruler/src/lambda_function.py:56 | the text test on a string holds exactly when the pattern occurs at some position |
| PyJson.PyIndex | Dynamo_Rule_Define/lambda_function.py:41-48 | `v[k]` succeeds exactly on a dict with that key and returns its value; a missing key is `KeyError`, a non-dict is `TypeError` |
| PyJson.PyGet | Dynamo_Rule_Define/lambda_function.py:12 | `.get(k)` returns the stored value, or `None` for a missing key |
| PyJson.PyIter | Dynamo_Rule_Define/lambda_function.py:70 | iterating a list yields its items; only dicts, lists and strings are iterable |
| PyInt.ParseInt | Dynamo_Rule_Define/lambda_function.py:26 | `int(text)`: blank text is rejected; a negative result comes from a leading minus sign |
| PyInt.ParseShow | Dynamo_Rule_Define/lambda_function.py:26 | `int(str(n)) == n` for every integer |
| PyInt.Truncate | Dynamo_Rule_Define/lambda_function.py:26 | `int(x)` of a number truncates toward zero |
| PyInt.IntOf | Dynamo_Rule_Define/lambda_function.py:25-30 | `int(v)`: truncation for numbers, 0/1 for booleans, success on a string exactly when it parses; `ValueError` for a bad string, `TypeError` for anything else |
| StableSort.SortBy | lambda/Lambda_Ruler/src/lambda_function.py:242 | `sorted(..., key=...)` returns a permutation of its input, ordered by key |
| StableSort.SortByStable | lambda/Lambda_Ruler/src/lambda_function.py:242 | the sort is stable: elements with equal keys keep their input order |
| WeatherStore.FarmRows | lambda/Lambda_Ruler/src/lambda_function.py:44 | `WHERE farm_id = %s` keeps exactly the rows of the farm |
| WeatherStore.FarmRowsIdempotent | lambda/Lambda_Ruler/src/lambda_function.py:108 | filtering by farm twice is filtering once |
| WeatherStore.NewestFirst | lambda/Lambda_Ruler/src/lambda_function.py:45 | `ORDER BY time DESC` is a permutation of the rows, newest first |
| WeatherStore.Latest | lambda/Lambda_Ruler/src/lambda_function.py:228-230 | the newest row of the farm after the cut-off; none exactly when there is no such row |
| WeatherStore.LatestTwo | lambda/Lambda_Ruler/src/lambda_function.py:41-50 | `LIMIT 2`: min(2, n) rows, where n is the number of farm rows up to now, drawn without repetition from those rows (a sub-multiset), newest first, with no other row newer than either |
| WeatherStore.CountMatching | lambda/Lambda_Ruler/src/lambda_function.py:103-112 | the count is positive exactly when some row of the farm in the window satisfies the comparison |
| WeatherStore.EarliestMatch | lambda/Lambda_Ruler/src/lambda_function.py:137-148 | `ORDER BY time ASC LIMIT 1`: the earliest matching time of the farm after the cut-off one day before now, with no upper bound, so future forecast rows count; none exactly when nothing matches |
| WeatherStore.AverageBetween | lambda/Lambda_Ruler/src/lambda_function.py:73-79 | `AVG` is `NULL` exactly when the farm has no non-NULL reading in the window |
| WeatherStore.AverageWithinBounds | lambda/Lambda_Ruler/src/lambda_function.py:73-79 | the average lies between any bounds on the readings it averages |
| Conditions.LeadingNumber | lambda/Lambda_Ruler/src/lambda_function.py:157 | `float(text.split()[0])`: the amount of a duration text; the empty text raises |
| Conditions.IntervalHours | lambda/Lambda_Ruler/src/lambda_function.py:56 | the interval in hours: the amount divided by 60 when the text mentions "minute", the amount itself otherwise |
| Conditions.PgMinutes | lambda/Lambda_Ruler/src/lambda_function.py:107 | `INTERVAL %s` in minutes for texts in seconds, minutes, hours, days and weeks; the empty text is rejected |
| Conditions.SecondField | lambda/Lambda_Ruler/src/lambda_function.py:64 | `token.split('_')[1]` exists exactly when the token contains an underscore |
| Conditions.ResolveDay | lambda/Lambda_Ruler/src/lambda_function.py:64-65 | "today" is offset 0 and "tomorrow" is offset 1; any other token without an underscore raises `IndexError` |
| Conditions.Negate | lambda/Lambda_Ruler/src/lambda_function.py:185 | `not` flips a boolean outcome and lets an exception through |
| LeafFacts.InstantCompare | lambda/Lambda_Ruler/src/lambda_function.py:116-126 | a leaf that is not `RATE>`, `DAY_DIFF>` or a temporal `>`, `<`, `=` compares the snapshot's reading with the value; a missing reading is false |
| LeafFacts.OtherLeafOperatorsFalse | lambda/Lambda_Ruler/src/lambda_function.py:120-126 | a leaf operator other than `>`, `<`, `=`, `RATE>` and `DAY_DIFF>` is false |
| LeafFacts.WindowedCount | lambda/Lambda_Ruler/src/lambda_function.py:101-114 | a temporal comparison holds exactly when some row of the farm in the trailing duration matches; a missing duration raises `KeyError` |
| LeafFacts.RateNeedsTwoRows | lambda/Lambda_Ruler/src/lambda_function.py:51-52 | `RATE>` is false when the farm has fewer than two rows up to now |
| LeafFacts.RateOnNewestTwo | lambda/Lambda_Ruler/src/lambda_function.py:40-58 | `RATE>` compares the farm's two newest rows up to now |
| LeafFacts.RateOfChange | lambda/Lambda_Ruler/src/lambda_function.py:53-58 | `RATE>` holds exactly when the change per hour exceeds the value per interval |
| LeafFacts.RateOfSimultaneousRows | lambda/Lambda_Ruler/src/lambda_function.py:55 | two rows at the same time give rate 0 instead of dividing by zero |
| LeafFacts.RateSampleFaults | lambda/Lambda_Ruler/src/lambda_function.py:54-56 | a NULL reading raises `TypeError`; an empty interval raises; a zero interval raises `ZeroDivisionError` |
| LeafFacts.RateFaults | lambda/Lambda_Ruler/src/lambda_function.py:40 | `RATE>` without `temporal.interval` raises `KeyError` |
| LeafFacts.RateWorkedExamples | lambda/Lambda_Ruler/src/lambda_function.py:53-58 | with value 1 per 30 minutes: a rise from 8 to 12 in an hour triggers, a rise from 8 to 10 does not |
| LeafFacts.DayWindowIsCalendarDay | lambda/Lambda_Ruler/src/lambda_function.py:66-69 | the window from 00:00 to 23:59 of day `d` contains exactly the times of calendar day `d` |
| LeafFacts.DayAverageOf | lambda/Lambda_Ruler/src/lambda_function.py:71-82 | a day's average is missing exactly when the farm has no reading that day |
| LeafFacts.DayDiff | lambda/Lambda_Ruler/src/lambda_function.py:79-99 | `DAY_DIFF>` is false when either day has no data, and otherwise holds when day2's average minus day1's exceeds the value |
| LeafFacts.DayDiffResolved | lambda/Lambda_Ruler/src/lambda_function.py:60-99 | once both day tokens resolve, `DAY_DIFF>` depends only on the two daily averages |
| LeafFacts.DayDiffFaults | lambda/Lambda_Ruler/src/lambda_function.py:61-65 | a missing `temporal`, `day1` or `day2` raises `KeyError`; an unresolvable `day1` raises its exception, and once `day1` resolves an unresolvable `day2` raises its own |
| LeafFacts.ResolveNumberedDay | lambda/Lambda_Ruler/src/lambda_function.py:64 | a token `word_N…` resolves to offset N |
| TreeLaws.AllOfTrue | lambda/Lambda_Ruler/src/lambda_function.py:173-177 | `all(...)` is true exactly when every child is true |
| TreeLaws.AllOfStopsAt | lambda/Lambda_Ruler/src/lambda_function.py:173-177 | `all(...)` stops at the first child that is not true and returns that child's outcome; later children are never evaluated |
| TreeLaws.AllOfNoFault | lambda/Lambda_Ruler/src/lambda_function.py:173-177 | with no faulting child, `all(...)` is the conjunction |
| TreeLaws.AnyOfFalse | lambda/Lambda_Ruler/src/lambda_function.py:179-183 | `any(...)` is false exactly when every child is false |
| TreeLaws.AnyOfStopsAt | lambda/Lambda_Ruler/src/lambda_function.py:179-183 | `any(...)` stops at the first child that is not false and returns that child's outcome |
| TreeLaws.AnyOfNoFault | lambda/Lambda_Ruler/src/lambda_function.py:179-183 | with no faulting child, `any(...)` is the disjunction |
| TreeLaws.ChildrenOf | lambda/Lambda_Ruler/src/lambda_function.py:174-175 | a group's child with a `metric` goes to the leaf evaluator, any other child to the tree; a list's items all go to the leaf evaluator |
| TreeLaws.ListIsConjunction | lambda/Lambda_Ruler/src/lambda_function.py:166-167 | a bare list holds exactly when every item holds as a leaf |
| TreeLaws.AndIsAll | lambda/Lambda_Ruler/src/lambda_function.py:172-177 | `AND` holds exactly when every sub-condition holds |
| TreeLaws.AndWithoutFaults | lambda/Lambda_Ruler/src/lambda_function.py:172-177 | with no faulting sub-condition, `AND` is the conjunction |
| TreeLaws.AndStopsAtFirstNonTrue | lambda/Lambda_Ruler/src/lambda_function.py:172-177 | `AND` returns the outcome of its first sub-condition that is not true |
| TreeLaws.OrIsAny | lambda/Lambda_Ruler/src/lambda_function.py:178-183 | `OR` is false exactly when every sub-condition is false |
| TreeLaws.OrWithoutFaults | lambda/Lambda_Ruler/src/lambda_function.py:178-183 | with no faulting sub-condition, `OR` is the disjunction |
| TreeLaws.OrStopsAtFirstNonFalse | lambda/Lambda_Ruler/src/lambda_function.py:178-183 | `OR` returns the outcome of its first sub-condition that is not false |
| TreeLaws.EmptyGroups | lambda/Lambda_Ruler/src/lambda_function.py:166-188 | empty list: true; empty `AND`: true; empty `OR`: false; empty `NOT`: `IndexError`; empty `SEQUENCE`: true |
| TreeLaws.UnknownOperatorIsFalse | lambda/Lambda_Ruler/src/lambda_function.py:188 | a group with any other operator is false |
| TreeLaws.NotNegatesFirst | lambda/Lambda_Ruler/src/lambda_function.py:184-185 | `NOT` negates its first sub-condition and ignores the rest |
| TreeLaws.NotOfLeafHolds | lambda/Lambda_Ruler/src/lambda_function.py:169-188 | `NOT` over a leaf is always true, because the leaf is evaluated as a group with an unknown operator |
| SequenceEval.EvaluateSequence | lambda/Lambda_Ruler/src/lambda_function.py:128-163 | the loop of `evaluate_sequence` computes the sequence outcome |
| SequenceEval.BoundAt | lambda/Lambda_Ruler/src/lambda_function.py:133-135 | the bound in force for step i is the `within` of some earlier step; there is none exactly when no earlier step has one |
| SequenceEval.SequenceHolds | lambda/Lambda_Ruler/src/lambda_function.py:128-163 | a sequence holds exactly when every step has a match and every gap respects the bound in force |
| SequenceEval.SequenceWithoutFaults | lambda/Lambda_Ruler/src/lambda_function.py:128-163 | when no step query fails, the outcome is exactly: every step found and every gap kept |
| SequenceEval.StepMatchFaults | lambda/Lambda_Ruler/src/lambda_function.py:137-147 | a step query succeeds exactly on a leaf with a SQL comparison operator; a group raises `KeyError`, a list `TypeError`, any other operator a query error |
| SequenceEval.SequenceOfComparisons | lambda/Lambda_Ruler/src/lambda_function.py:137-147 | a sequence of comparison leaves never raises |
| SequenceEval.MissingStepFails | lambda/Lambda_Ruler/src/lambda_function.py:148-151 | a step without a match makes the sequence false when every earlier step matched within its bound |
| SequenceEval.GapCheck | lambda/Lambda_Ruler/src/lambda_function.py:154-160 | a gap in minutes breaks a bound exactly when it exceeds the bound's amount, whatever its unit; no bound or an empty bound is never broken |
| SequenceEval.TwoStepExample | lambda/Lambda_Ruler/src/lambda_function.py:154-160 | with `within` "60 minutes", a second event 90 minutes later fails, one 30 minutes later holds, and one 30 minutes earlier also holds |
| FarmIsolation.LeafScoped | lambda/Lambda_Ruler/src/lambda_function.py:32-126 | a leaf's outcome depends only on the farm's own rows, the time and the snapshot |
| FarmIsolation.StepMatchScoped | lambda/Lambda_Ruler/src/lambda_function.py:137-147 | a sequence step query reads only the farm's own rows |
| FarmIsolation.SequenceScoped | lambda/Lambda_Ruler/src/lambda_function.py:128-163 | a sequence outcome reads only the farm's own rows |
| FarmIsolation.TreeScoped | lambda/Lambda_Ruler/src/lambda_function.py:165-188 | the tree reads only what its leaf evaluator reads |
| FarmIsolation.OtherFarmsIgnored | lambda/Lambda_Ruler/src/lambda_function.py:165-188 | adding rows of other farms to the table changes no condition's outcome |
| RuleDispatch.Snapshot | lambda/Lambda_Ruler/src/lambda_function.py:223-234 | `data` holds the selected columns of the farm's newest row later than one day before now (with no upper bound), or is empty when there is no such row |
| RuleDispatch.SnapshotLacksSolar | lambda/Lambda_Ruler/src/lambda_function.py:225-226 | solar radiation is never in the snapshot |
| RuleDispatch.KeyOf | lambda/Lambda_Ruler/src/lambda_function.py:242 | the sort key is `int(priority)`; a missing priority raises `KeyError` |
| RuleDispatch.FirstKeyFaultIsFirst | lambda/Lambda_Ruler/src/lambda_function.py:242 | the exception raised by the sort is that of some rule's key |
| RuleDispatch.SortRules | lambda/Lambda_Ruler/src/lambda_function.py:242 | the sort fails exactly when some key fails; otherwise it returns a permutation in ascending priority |
| RuleDispatch.SortRulesStable | lambda/Lambda_Ruler/src/lambda_function.py:242 | rules of equal priority keep their catalog order |
| RuleDispatch.Listed | lambda/Lambda_Ruler/src/lambda_function.py:244-245 | the listing loop succeeds exactly when every rule has `rule_id`, `name`, `priority` and `conditions`; otherwise it raises `KeyError` before any rule is evaluated |
| RuleDispatch.Alerts | lambda/Lambda_Ruler/src/lambda_function.py:256-270 | the actions loop fails (`KeyError`) exactly when some action lacks a `type`, or an email or SMS lacks a `message`; every email sent carries the rule's subject and the message of an email action |
| RuleDispatch.AlertsPerEmail | lambda/Lambda_Ruler/src/lambda_function.py:256-266 | without a fault, one email is sent per email action |
| RuleDispatch.SendAlerts | lambda/Lambda_Ruler/src/lambda_function.py:256-270 | the loop over the actions sends the emails and raises the exception that the reference definition gives |
| RuleDispatch.DispatchRules | lambda/Lambda_Ruler/src/lambda_function.py:247-279 | the rules loop computes the triggered entries, the emails sent and the exception that ended it, as the reference definition gives them |
| RuleDispatch.LambdaHandler | lambda/Lambda_Ruler/src/lambda_function.py:220-290 | the handler's response and the emails it sent, with any exception a status-500 response; rules are evaluated over `forecast_weather` for the data type "forecast" and `current_weather` otherwise (line 220) |
| DispatchLaws.Fired | lambda/Lambda_Ruler/src/lambda_function.py:247-277 | reference definition: the rules that fire, in order, up to the first one that stops |
| DispatchLaws.RunIsFired | lambda/Lambda_Ruler/src/lambda_function.py:247-277 | when the loop ends without an exception, `triggered_actions` holds exactly the fired rules, in order |
| DispatchLaws.FiredStopsLast | lambda/Lambda_Ruler/src/lambda_function.py:275-277 | only the last triggered rule can be one that stops |
| DispatchLaws.FiredSorted | lambda/Lambda_Ruler/src/lambda_function.py:247-253 | triggering keeps the rules' order, so priority order carries over |
| DispatchLaws.StopsAtFirstTrigger | lambda/Lambda_Ruler/src/lambda_function.py:275-277 | the first triggered rule with `stop_on_match` ends the loop; the rules after it are never evaluated |
| DispatchLaws.MismatchedRuleIgnored | lambda/Lambda_Ruler/src/lambda_function.py:249-251 | a rule with another data type is skipped: inserting it anywhere changes nothing |
| DispatchLaws.HandleAnswersFiredRules | lambda/Lambda_Ruler/src/lambda_function.py:242-283 | a status-200 answer lists exactly the fired rules, in ascending priority |
| DispatchLaws.NoRulesNoAlerts | lambda/Lambda_Ruler/src/lambda_function.py:247-283 | with no rules, the handler answers status 200 with nothing triggered and sends nothing |
| DecimalJson.DecimalRem | lambda/Lambda_Ruler/src/lambda_function.py:14 | `d % 1` lies strictly between -1 and 1 and has the sign of `d` |
| DecimalJson.DecimalRemZero | lambda/Lambda_Ruler/src/lambda_function.py:14 | `d % 1` is zero exactly for an integral `d` |
| DecimalJson.Default | lambda/Lambda_Ruler/src/lambda_function.py:12-15 | a Decimal is written with its own value, as an integer exactly when it is integral; anything else raises `TypeError` |
| DecimalJson.DefaultRoundTrip | lambda/Lambda_Ruler/src/lambda_function.py:12-15 | a number the encoder writes, read back as a Decimal, is written the same way again |
| DecimalJson.DefaultExamples | lambda/Lambda_Ruler/src/lambda_function.py:14 | 3 and -4 become integers; 2.5 and -0.5 become floats |
| RuleValidator.LeafCheck | Dynamo_Rule_Define/lambda_function.py:39-53 | checking a leaf never gives a bare `False`, and a rejection carries a conditions reason |
| RuleValidator.ValidateConditions | Dynamo_Rule_Define/lambda_function.py:33-63 | `validate_conditions` as written rejects only with conditions reasons |
| RuleValidator.ItemsCheck | Dynamo_Rule_Define/lambda_function.py:34-37 | the loop over a list rejects only with conditions reasons |
| RuleValidator.NeverBareFalse | Dynamo_Rule_Define/lambda_function.py:33-63 | `validate_conditions` never returns the bare `False`, since every nested result is a non-empty tuple, which is truthy |
| RuleValidator.ItemsNeverBareFalse | Dynamo_Rule_Define/lambda_function.py:35-37 | a list whose items all check without an exception always passes |
| RuleValidator.NestedFailuresIgnored | lambda/lambda_function.py:34-37 | a list, or a dict with `operator` and `sub_conditions` whose operator is valid, passes whenever its nested checks raise nothing |
| RuleValidator.NestedLeafAccepted | Dynamo_Rule_Define/lambda_function.py:35-37 | a leaf with an invalid metric is rejected on its own but accepted inside a list |
| RuleValidator.StrictConditions | Dynamo_Rule_Define/lambda_function.py:33-63 | the corrected checker never returns a bare `False` and rejects only with conditions reasons |
| RuleValidator.StrictIffWellFormed | Dynamo_Rule_Define/lambda_function.py:33-63 | the corrected checker accepts exactly the trees in which every leaf and every group is valid, for every tree, so a valid tree never raises |
| RuleValidator.WellFormedNeverRaises | Dynamo_Rule_Define/lambda_function.py:33-63 | a tree whose every node is valid passes the corrected checker with no exception |
| RuleValidator.StrictRejectsNestedLeaf | Dynamo_Rule_Define/lambda_function.py:35-37 | the corrected checker rejects the nested invalid leaf with its own reason |
| RuleValidator.StrictAgreesOnLeaves | Dynamo_Rule_Define/lambda_function.py:38-62 | on anything but a list or a group, the corrected checker agrees with the original |
| RuleValidator.LeafCheckIff | Dynamo_Rule_Define/lambda_function.py:39-53 | a leaf passes exactly when it names a known metric compatible with the data type and a known operator, has a numeric value, and has a `duration` (plus an `interval` for `RATE>`) when it has a `temporal` |
| RuleValidator.CrossChecksFirst | Dynamo_Rule_Define/lambda_function.py:41-44 | chance of rain with current data, and solar radiation with forecast data, are rejected before anything else about the leaf |
| RuleValidator.DayDiffLeafRejected | Dynamo_Rule_Define/lambda_function.py:47-48 | a `DAY_DIFF>` leaf checked at the top level is rejected; with a known metric the reason is a data-type cross-check or the operator |
| RuleValidator.NestedDayDiffAccepted | Dynamo_Rule_Define/lambda_function.py:35-37 | every `DAY_DIFF>` leaf, rejected on its own, is accepted inside a list and inside an AND group holding that list |
| RuleValidator.AndOfPasses | Dynamo_Rule_Define/lambda_function.py:54-58 | an AND group passes whenever its `sub_conditions` pass |
| RuleValidator.ShapeRejected | lambda/lambda_function.py:54-62 | a dict with neither a `metric` nor `operator` and `sub_conditions` is rejected; anything not a list or dict is rejected; an unknown group operator is rejected |
| RuleValidator.ActionCheck | Dynamo_Rule_Define/lambda_function.py:71-74 | an action is rejected only for its type or its message |
| RuleValidator.ActionCheckIff | Dynamo_Rule_Define/lambda_function.py:71-74 | an action passes exactly when its type is "sms" or "email" and its message is a string |
| RuleValidator.ActionsFrom | Dynamo_Rule_Define/lambda_function.py:70-74 | the actions loop passes exactly when every remaining action is valid |
| RuleValidator.ActionsCheck | Dynamo_Rule_Define/lambda_function.py:70-74 | checking the actions rejects only for an action's type or message |
| RuleValidator.ActionsCheckIff | lambda/lambda_function.py:70-74 | the actions pass exactly when they are iterable and every element is a valid action |
| RuleValidator.FirstMissing | Dynamo_Rule_Define/lambda_function.py:15-18 | no field is reported missing exactly when all required fields are present; the reported field is required and absent |
| RuleValidator.FirstMissingIsFirst | Dynamo_Rule_Define/lambda_function.py:16-18 | the reported field is the first absent one in the order of the list |
| RuleValidator.PriorityCheck | Dynamo_Rule_Define/lambda_function.py:25-30 | the priority passes exactly when `int()` succeeds with a value in 1..10; the failure is "not an integer" exactly when `int()` raises |
| RuleValidator.ValidateRuleWith | Dynamo_Rule_Define/lambda_function.py:9-80 | `validate_rule`'s verdict is never the bare `False` |
| RuleValidator.RuleAccepted | lambda/lambda_function.py:9-80 | a rule is accepted exactly when every check passes |
| RuleValidator.AcceptedRuleFields | Dynamo_Rule_Define/lambda_function.py:20-30 | an accepted rule has data type "forecast" or "current", an integer priority in 1..10 and a boolean `stop_on_match` |
| RuleValidator.AcceptedIffStagesPass | Dynamo_Rule_Define/lambda_function.py:9-80 | for any conditions checker, acceptance holds exactly when every check passes |
| RuleValidator.AcceptedIffAllStages | Dynamo_Rule_Define/lambda_function.py:9-80 | acceptance holds exactly when each of the seven stages lets the rule through |
| RuleValidator.CheckersReportConditionReasons | Dynamo_Rule_Define/lambda_function.py:40-62 | both conditions checkers reject only with conditions reasons |
| RuleValidator.StageOrder | Dynamo_Rule_Define/lambda_function.py:9-80 | the checks run in a fixed order and the first failure is reported: a rejection at one stage means that stage failed and every earlier stage passed |
| RuleValidator.RuleStageOrder | lambda/lambda_function.py:9-80 | the same order for `validate_rule` as written |
| RuleValidator.HistoricalFirst | Dynamo_Rule_Define/lambda_function.py:12-13 | the historical-test reason is given exactly when `action` is "test_historical" |
| RuleValidator.StrictRuleAccepted | Dynamo_Rule_Define/lambda_function.py:9-80 | the corrected validator accepts exactly when every check passes, and an accepted rule has a condition tree whose every node is valid |

## Left out

- Database connections, DynamoDB, SNS and the validator's HTTP routing are not modelled. The rule catalog is a parameter (a function from farm and stakeholder to the items it returns). The source catches a failed SNS publish and only logs it, so the model lists every email it hands to SNS as sent.
- The event unpacking that picks the farm, stakeholder and data type is not modelled. Neither are the default values it uses. The model starts from a `Selection`.
- The clock is a parameter `now` in whole minutes. Time zones, seconds and microseconds are not modelled. Days are `time / 1440`.
- Readings and values are exact reals. IEEE float rounding, NaN and the float/`Decimal` distinction are not modelled.
- Leaf values are always numbers. A missing `value` or a non-numeric string `value` in the engine is not modelled. Metrics are the seven known columns; an unknown column name, which would be an SQL error, is not modelled.
- Duration texts are either "<amount> <unit>" or empty. `PgMinutes` maps the units second, minute, hour, day and week, singular or plural; any other text is a query error. The unit must be written in lower case. PostgreSQL's `INTERVAL` accepts much more; examples are units in any letter case ("2 Hours"), abbreviations ("30 mins", "2 hrs", "1 h"), milliseconds and microseconds, months, years, decades and centuries, compound texts ("1 day 2 hours"), a trailing "ago" and a bare number of seconds ("90"). For these the model raises a query error, so the handler answers status 500, where the program counts rows.
- `int()` on strings: the model strips only space, tab, newline, carriage return, vertical tab and form feed. Python's `int()` also strips `\x1c`-`\x1f`, `\x85` and the Unicode spaces, and accepts Unicode digits and `_` between digits; the model rejects all of these with `ValueError`.
- JSON objects are association lists with distinct keys. `json.loads` itself is not modelled.
- Every `print` is left out. The listing loop's indexing of `rule_id`, `name`, `priority` and `conditions` is modelled, because it can raise `KeyError`. `json.dumps` of the conditions is not modelled.
- Rejection messages are replaced by the `Reason` enumeration. Their text formatting is not modelled.
- The tie order of `ORDER BY ... LIMIT` is table order. PostgreSQL leaves it unspecified.
- Python exceptions are outcomes (`Raised`, `Err`), not preconditions. The source handles them: `lambda_handler` turns every exception into a status-500 response. Which exceptions happen depends on stored data and on short-circuit evaluation.
- `conditions = rule.get('conditions', [])` in the rules loop always finds the key. The listing loop before it has already indexed `rule['conditions']`, so the default is never used.
- An exception anywhere in the rules loop aborts the invocation with status 500. The emails sent before it stay sent.
- The step of a sequence carries its own `within`; the bound in force for a step is the `within` of the closest earlier step that has one. The sequence does not require the events to be in time order: an event earlier than the previous one gives a negative gap, which never breaks a non-negative bound. A negative `within` such as "-10 minutes" does break: a gap of -5 fails the sequence.
- The gap check of a sequence compares minutes with the bare amount of `within` and ignores its unit, so "2 hours" allows a gap of 2 minutes (`SequenceEval.GapCheck`).
- Day tokens other than "today" and "tomorrow" are read as `word_N`, with N the day offset.
- The engine evaluates `DAY_DIFF>`. The validator rejects a top-level `DAY_DIFF>` leaf (`RuleValidator.DayDiffLeafRejected`), but accepts one nested in a list or group (`RuleValidator.NestedDayDiffAccepted`, see Findings). A stored rule can therefore carry `DAY_DIFF>` only nested.
- The typed shapes of rules hold less than a stored rule can. An action keeps only its `type` and `message`, so extra keys of an action are not part of the entries in `triggered_actions`. A rule's `actions` is a list of actions and a group's `sub_conditions` a list of conditions; a value of any other shape, which the engine would iterate or index differently, is not modelled. A `within` is a duration text, so a numeric `within`, which raises `AttributeError` at `.split()`, is not modelled. Likewise the `DAY_DIFF>` tokens `day1` and `day2` are strings, so a non-string token such as `"day1": 2`, which is neither "today" nor "tomorrow" and raises `AttributeError` at `.split('_')`, is not modelled. The rule given to `validate_rule` is a JSON object, so a request body that decodes to a list, a string or a number, on which `rule.get` raises `AttributeError` and which the handler's `except ClientError` does not catch, is not modelled.
- The response body is not serialised. `json.dumps(triggered_actions, cls=DecimalEncoder)` is not modelled: `RuleDispatch.Response` carries the entries as values. `DecimalJson.Default` models the encoder's hook on its own.

## Findings

| source | as written | input that shows it | evidently intended | confidence | as-written member | corrected member |
|---|---|---|---|---|---|---|
| Dynamo_Rule_Define/lambda_function.py:35-37 | Nested failures are ignored. `if not validate_conditions(cond)` tests a tuple `(False, msg)`, which is truthy, so the failure of a list item or sub-condition is discarded and the rule passes | conditions `[{"metric": "snow", "operator": ">", "value": 1}]` with data type "forecast" | the first nested failure is reported, so a rule passes only when every node of its condition tree is valid | not executed | RuleValidator.NestedLeafAccepted | RuleValidator.StrictIffWellFormed |

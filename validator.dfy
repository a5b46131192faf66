/**
 * `validate_rule` and its inner `validate_conditions`: the checks a rule
 * definition must pass before it is stored. A rule is a JSON object as
 * `json.loads` produced it; the checks run in a fixed order and the first
 * failure is the one reported.
 */
module RuleValidator {
  import opened Wrappers
  import opened PyJson
  import opened PyInt

  /** Why a rule is rejected; each stands for one of the messages of `validate_rule`. */
  datatype Reason =
    | HistoricalTest
    | MissingField(field: string)
    | BadDataType
    | PriorityNotInteger
    | PriorityOutOfRange
    | ChanceOfRainNeedsForecast
    | SolarNeedsCurrent
    | BadMetric
    | BadOperator
    | NonNumericValue
    | IncompleteTemporal
    | BadGroupOperator
    | NotLeafOrGroup
    | NotListOrDict
    | BadActionType
    | NonStringMessage
    | StopOnMatchNotBool

  /** What a check returns: `(True, None)`, `(False, message)`, or a bare `False`. */
  datatype Check = Pass | Fail(reason: Reason) | BareFalse

  /** `not result` is false for any non-empty tuple: only a bare `False` is falsy. */
  predicate Truthy(c: Check) {
    !c.BareFalse?
  }

  const RequiredFields: seq<string> :=
    ["farm_id", "rule_id", "name", "conditions", "actions", "priority", "stakeholder", "data_type"]

  const MetricNames: seq<string> :=
    ["temperature_c", "humidity_percent", "wind_speed_mps", "wind_direction_deg", "rainfall_mm",
     "chance_of_rain_percent", "solar_radiation_wm2"]

  const LeafOperators: seq<string> := [">", "<", "=", ">=", "<=", "RATE>"]

  const GroupOperators: seq<string> := ["AND", "OR", "NOT", "SEQUENCE"]

  /** The reasons `validate_conditions` can give. */
  predicate IsConditionReason(reason: Reason) {
    reason in {ChanceOfRainNeedsForecast, SolarNeedsCurrent, BadMetric, BadOperator, NonNumericValue,
               IncompleteTemporal, BadGroupOperator, NotLeafOrGroup, NotListOrDict}
  }

  /** `v in [...]` for a list of strings: only an equal string is a member. */
  predicate InStrings(v: Json, ss: seq<string>) {
    v.JStr? && v.s in ss
  }

  // ---------------------------------------------------------------- a leaf

  /**
   * The checks of a dict with a `metric`: the two data-type cross-checks, the
   * metric, the operator (a missing one is a KeyError), the value, and the
   * keys a `temporal` needs.
   */
  function LeafCheck(fields: seq<(string, Json)>, dataType: Json): (r: Result<Check, PyError>)
    requires HasKey(fields, "metric")
    ensures r.Ok? ==> !r.value.BareFalse?
    ensures r.Ok? && r.value.Fail? ==> IsConditionReason(r.value.reason)
  {
    var metric := Lookup(fields, "metric").value;
    if metric == JStr("chance_of_rain_percent") && dataType == JStr("current") then Ok(Fail(ChanceOfRainNeedsForecast))
    else if metric == JStr("solar_radiation_wm2") && dataType == JStr("forecast") then Ok(Fail(SolarNeedsCurrent))
    else if !InStrings(metric, MetricNames) then Ok(Fail(BadMetric))
    else
      match Lookup(fields, "operator")
      case None => Err(KeyError)
      case Some(op) =>
        if !InStrings(op, LeafOperators) then Ok(Fail(BadOperator))
        else if !HasKey(fields, "value") || !IsNumber(Lookup(fields, "value").value) then Ok(Fail(NonNumericValue))
        else if !HasKey(fields, "temporal") then Ok(Pass)
        else
          var temporal := Lookup(fields, "temporal").value;
          match PyIn("duration", temporal)
          case Err(e) => Err(e)
          case Ok(hasDuration) =>
            if !hasDuration then Ok(Fail(IncompleteTemporal))
            else if op != JStr("RATE>") then Ok(Pass)
            else
              match PyIn("interval", temporal)
              case Err(e) => Err(e)
              case Ok(hasInterval) => if hasInterval then Ok(Pass) else Ok(Fail(IncompleteTemporal))
  }

  // ---------------------------------------------------------------- conditions, as written

  /**
   * `validate_conditions` as written. A list checks every item and a group its
   * `sub_conditions`, but a child's result is only tested with `not`, which
   * no tuple satisfies, so a child's failure is dropped; its exceptions still
   * propagate.
   */
  function ValidateConditions(c: Json, dataType: Json): (r: Result<Check, PyError>)
    ensures r.Ok? && r.value.Fail? ==> IsConditionReason(r.value.reason)
    decreases c, 1
  {
    match c
    case JArr(items) => ItemsCheck(c, dataType, 0)
    case JObj(fields) =>
      if HasKey(fields, "metric") then LeafCheck(fields, dataType)
      else if HasKey(fields, "operator") && HasKey(fields, "sub_conditions") then
        var op := Lookup(fields, "operator").value;
        if !InStrings(op, GroupOperators) then Ok(Fail(BadGroupOperator))
        else
          var sub := Lookup(fields, "sub_conditions").value;
          assert ("sub_conditions", sub) in fields;
          match ValidateConditions(sub, dataType)
          case Err(e) => Err(e)
          case Ok(child) => if !Truthy(child) then Ok(BareFalse) else Ok(Pass)
      else Ok(Fail(NotLeafOrGroup))
    case _ => Ok(Fail(NotListOrDict))
  }

  /** The `for cond in conditions` loop of a list, from item `i` on. */
  function ItemsCheck(c: Json, dataType: Json, i: nat): (r: Result<Check, PyError>)
    requires c.JArr? && i <= |c.items|
    ensures r.Ok? && r.value.Fail? ==> IsConditionReason(r.value.reason)
    decreases c, 0, |c.items| - i
  {
    if i == |c.items| then Ok(Pass)
    else
      match ValidateConditions(c.items[i], dataType)
      case Err(e) => Err(e)
      case Ok(child) => if !Truthy(child) then Ok(BareFalse) else ItemsCheck(c, dataType, i + 1)
  }

  /** A bare `False` is never returned: every path ends in a tuple. */
  lemma {:induction false} NeverBareFalse(c: Json, dataType: Json)
    ensures ValidateConditions(c, dataType).Ok? ==> !ValidateConditions(c, dataType).value.BareFalse?
    decreases c, 1
  {
    match c
    case JArr(items) => ItemsNeverBareFalse(c, dataType, 0);
    case JObj(fields) =>
      if !HasKey(fields, "metric") && HasKey(fields, "operator") && HasKey(fields, "sub_conditions") {
        var sub := Lookup(fields, "sub_conditions").value;
        assert ("sub_conditions", sub) in fields;
        NeverBareFalse(sub, dataType);
      }
    case _ =>
  }

  /** A list whose items raise nothing passes, whatever its items are. */
  lemma {:induction false} ItemsNeverBareFalse(c: Json, dataType: Json, i: nat)
    requires c.JArr? && i <= |c.items|
    ensures ItemsCheck(c, dataType, i).Ok? ==> ItemsCheck(c, dataType, i) == Ok(Pass)
    decreases c, 0, |c.items| - i
  {
    if i < |c.items| {
      NeverBareFalse(c.items[i], dataType);
      ItemsNeverBareFalse(c, dataType, i + 1);
    }
  }

  /**
   * Only the top node is checked: a list, or a group with a valid operator,
   * passes as soon as nothing inside it raises.
   */
  lemma NestedFailuresIgnored(c: Json, dataType: Json)
    requires c.JArr? || (c.JObj? && !HasKey(c.fields, "metric") && HasKey(c.fields, "operator")
                         && HasKey(c.fields, "sub_conditions") && InStrings(Lookup(c.fields, "operator").value, GroupOperators))
    ensures ValidateConditions(c, dataType).Ok? ==> ValidateConditions(c, dataType) == Ok(Pass)
  {
    if c.JArr? {
      ItemsNeverBareFalse(c, dataType, 0);
    } else {
      var sub := Lookup(c.fields, "sub_conditions").value;
      assert ("sub_conditions", sub) in c.fields;
      NeverBareFalse(sub, dataType);
    }
  }

  /** A list holding one leaf with an unknown metric. */
  const BadNestedLeaf: Json := JObj([("metric", JStr("snow")), ("operator", JStr(">")), ("value", JNum(1.0))])

  /** The leaf alone is rejected, but the list holding it is accepted. */
  lemma NestedLeafAccepted()
    ensures ValidateConditions(BadNestedLeaf, JStr("forecast")) == Ok(Fail(BadMetric))
    ensures ValidateConditions(JArr([BadNestedLeaf]), JStr("forecast")) == Ok(Pass)
  {
    assert Lookup(BadNestedLeaf.fields, "metric") == Some(JStr("snow"));
    assert HasKey(BadNestedLeaf.fields, "metric");
    assert "snow" !in MetricNames;
    assert ValidateConditions(BadNestedLeaf, JStr("forecast")) == Ok(Fail(BadMetric));
    var list := JArr([BadNestedLeaf]);
    assert list.items[0] == BadNestedLeaf;
    assert ItemsCheck(list, JStr("forecast"), 1) == Ok(Pass);
    assert ItemsCheck(list, JStr("forecast"), 0) == Ok(Pass);
  }

  /**
   * A `DAY_DIFF>` leaf, which is rejected on its own, is accepted inside a
   * list, and so inside an AND group holding that list.
   */
  lemma NestedDayDiffAccepted(fields: seq<(string, Json)>, dataType: Json)
    requires HasKey(fields, "metric") && HasKey(fields, "operator")
    requires Lookup(fields, "operator").value == JStr("DAY_DIFF>")
    ensures ValidateConditions(JObj(fields), dataType).Ok? && ValidateConditions(JObj(fields), dataType).value.Fail?
    ensures ValidateConditions(JArr([JObj(fields)]), dataType) == Ok(Pass)
    ensures ValidateConditions(AndOf(JArr([JObj(fields)])), dataType) == Ok(Pass)
  {
    DayDiffLeafRejected(fields, dataType);
    var list := JArr([JObj(fields)]);
    assert list.items[0] == JObj(fields);
    assert ItemsCheck(list, dataType, 1) == Ok(Pass);
    assert ItemsCheck(list, dataType, 0) == Ok(Pass);
    AndOfPasses(list, dataType);
  }

  /** `{"operator": "AND", "sub_conditions": sub}`. */
  function AndOf(sub: Json): Json {
    JObj([("operator", JStr("AND")), ("sub_conditions", sub)])
  }

  /** An AND group passes when its `sub_conditions` do. */
  lemma AndOfPasses(sub: Json, dataType: Json)
    requires ValidateConditions(sub, dataType) == Ok(Pass)
    ensures ValidateConditions(AndOf(sub), dataType) == Ok(Pass)
  {
    var fields := AndOf(sub).fields;
    assert Keys(fields) == ["operator", "sub_conditions"];
    assert !HasKey(fields, "metric");
    assert Lookup(fields, "operator") == Some(JStr("AND"));
    assert Lookup(fields, "sub_conditions") == Some(sub);
    assert GroupOperators[0] == "AND";
  }

  // ---------------------------------------------------------------- conditions, as intended

  /** `validate_conditions` as its recursive tests intend: the first failure inside a list or group is reported. */
  function StrictConditions(c: Json, dataType: Json): (r: Result<Check, PyError>)
    ensures r.Ok? ==> !r.value.BareFalse?
    ensures r.Ok? && r.value.Fail? ==> IsConditionReason(r.value.reason)
    decreases c, 1
  {
    match c
    case JArr(items) => StrictItems(c, dataType, 0)
    case JObj(fields) =>
      if HasKey(fields, "metric") then LeafCheck(fields, dataType)
      else if HasKey(fields, "operator") && HasKey(fields, "sub_conditions") then
        var op := Lookup(fields, "operator").value;
        if !InStrings(op, GroupOperators) then Ok(Fail(BadGroupOperator))
        else
          var sub := Lookup(fields, "sub_conditions").value;
          assert ("sub_conditions", sub) in fields;
          StrictConditions(sub, dataType)
      else Ok(Fail(NotLeafOrGroup))
    case _ => Ok(Fail(NotListOrDict))
  }

  function StrictItems(c: Json, dataType: Json, i: nat): (r: Result<Check, PyError>)
    requires c.JArr? && i <= |c.items|
    ensures r.Ok? ==> !r.value.BareFalse?
    ensures r.Ok? && r.value.Fail? ==> IsConditionReason(r.value.reason)
    decreases c, 0, |c.items| - i
  {
    if i == |c.items| then Ok(Pass)
    else
      match StrictConditions(c.items[i], dataType)
      case Err(e) => Err(e)
      case Ok(child) => if child.Fail? then Ok(child) else StrictItems(c, dataType, i + 1)
  }

  /** A leaf that passes every check of `LeafCheck`. */
  ghost predicate LeafValid(fields: seq<(string, Json)>, dataType: Json)
    requires HasKey(fields, "metric")
  {
    LeafCheck(fields, dataType) == Ok(Pass)
  }

  /** Every node of the tree is a valid leaf, or a list or a group with a valid operator whose children are valid. */
  ghost predicate WellFormed(c: Json, dataType: Json)
    decreases c, 1
  {
    match c
    case JArr(items) => WellFormedItems(c, dataType, 0)
    case JObj(fields) =>
      if HasKey(fields, "metric") then LeafValid(fields, dataType)
      else if HasKey(fields, "operator") && HasKey(fields, "sub_conditions") then
        var sub := Lookup(fields, "sub_conditions").value;
        assert ("sub_conditions", sub) in fields;
        InStrings(Lookup(fields, "operator").value, GroupOperators) && WellFormed(sub, dataType)
      else false
    case _ => false
  }

  ghost predicate WellFormedItems(c: Json, dataType: Json, i: nat)
    requires c.JArr? && i <= |c.items|
    decreases c, 0, |c.items| - i
  {
    i == |c.items| || (WellFormed(c.items[i], dataType) && WellFormedItems(c, dataType, i + 1))
  }

  /** The corrected check accepts a tree exactly when every node of it is valid; a valid tree never raises. */
  lemma {:induction false} StrictIffWellFormed(c: Json, dataType: Json)
    ensures StrictConditions(c, dataType) == Ok(Pass) <==> WellFormed(c, dataType)
    decreases c, 1
  {
    match c
    case JArr(items) => StrictItemsIff(c, dataType, 0);
    case JObj(fields) =>
      if !HasKey(fields, "metric") && HasKey(fields, "operator") && HasKey(fields, "sub_conditions") {
        var sub := Lookup(fields, "sub_conditions").value;
        assert ("sub_conditions", sub) in fields;
        if InStrings(Lookup(fields, "operator").value, GroupOperators) {
          StrictIffWellFormed(sub, dataType);
        }
      }
    case _ =>
  }

  lemma {:induction false} StrictItemsIff(c: Json, dataType: Json, i: nat)
    requires c.JArr? && i <= |c.items|
    ensures StrictItems(c, dataType, i) == Ok(Pass) <==> WellFormedItems(c, dataType, i)
    decreases c, 0, |c.items| - i
  {
    if i < |c.items| {
      StrictIffWellFormed(c.items[i], dataType);
      StrictItemsIff(c, dataType, i + 1);
    }
  }

  /** A tree whose every node is valid passes the corrected check without raising. */
  lemma WellFormedNeverRaises(c: Json, dataType: Json)
    requires WellFormed(c, dataType)
    ensures StrictConditions(c, dataType) == Ok(Pass)
  {
    StrictIffWellFormed(c, dataType);
  }

  /** The corrected check reports the nested leaf's failure. */
  lemma StrictRejectsNestedLeaf()
    ensures StrictConditions(JArr([BadNestedLeaf]), JStr("forecast")) == Ok(Fail(BadMetric))
  {
    NestedLeafAccepted();
    assert StrictConditions(BadNestedLeaf, JStr("forecast")) == ValidateConditions(BadNestedLeaf, JStr("forecast"));
  }

  /** On a leaf, and on anything that is neither a list nor a dict, the two checks agree. */
  lemma StrictAgreesOnLeaves(c: Json, dataType: Json)
    requires !c.JArr? && !(c.JObj? && !HasKey(c.fields, "metric") && HasKey(c.fields, "operator") && HasKey(c.fields, "sub_conditions"))
    ensures StrictConditions(c, dataType) == ValidateConditions(c, dataType)
  {
  }

  // ---------------------------------------------------------------- leaf laws

  /** What a `temporal` must hold: `duration`, and `interval` as well under `RATE>`. */
  predicate TemporalOk(temporal: Json, op: Json) {
    PyIn("duration", temporal) == Ok(true) && (op == JStr("RATE>") ==> PyIn("interval", temporal) == Ok(true))
  }

  /** Declarative reading of a valid leaf. */
  predicate LeafOk(fields: seq<(string, Json)>, dataType: Json)
    requires HasKey(fields, "metric")
  {
    var metric := Lookup(fields, "metric").value;
    InStrings(metric, MetricNames)
    && !(metric == JStr("chance_of_rain_percent") && dataType == JStr("current"))
    && !(metric == JStr("solar_radiation_wm2") && dataType == JStr("forecast"))
    && HasKey(fields, "operator") && InStrings(Lookup(fields, "operator").value, LeafOperators)
    && HasKey(fields, "value") && IsNumber(Lookup(fields, "value").value)
    && (HasKey(fields, "temporal") ==> TemporalOk(Lookup(fields, "temporal").value, Lookup(fields, "operator").value))
  }

  /** A leaf passes exactly when it is valid in the declarative sense. */
  lemma LeafCheckIff(fields: seq<(string, Json)>, dataType: Json)
    requires HasKey(fields, "metric")
    ensures LeafCheck(fields, dataType) == Ok(Pass) <==> LeafOk(fields, dataType)
  {
  }

  /**
   * The cross-checks of the metric against the data type come first: they
   * reject the leaf whatever its operator and value, even with no operator.
   */
  lemma CrossChecksFirst(fields: seq<(string, Json)>, dataType: Json)
    requires HasKey(fields, "metric")
    ensures Lookup(fields, "metric").value == JStr("chance_of_rain_percent") && dataType == JStr("current")
            ==> LeafCheck(fields, dataType) == Ok(Fail(ChanceOfRainNeedsForecast))
    ensures Lookup(fields, "metric").value == JStr("solar_radiation_wm2") && dataType == JStr("forecast")
            ==> LeafCheck(fields, dataType) == Ok(Fail(SolarNeedsCurrent))
  {
  }

  /** `DAY_DIFF>` is not an accepted operator, so a top-level day-difference leaf is rejected. */
  lemma DayDiffLeafRejected(fields: seq<(string, Json)>, dataType: Json)
    requires HasKey(fields, "metric") && HasKey(fields, "operator")
    requires Lookup(fields, "operator").value == JStr("DAY_DIFF>")
    ensures ValidateConditions(JObj(fields), dataType).Ok? && ValidateConditions(JObj(fields), dataType).value.Fail?
    ensures InStrings(Lookup(fields, "metric").value, MetricNames) ==>
              ValidateConditions(JObj(fields), dataType).value.reason in {ChanceOfRainNeedsForecast, SolarNeedsCurrent, BadOperator}
  {
    assert !InStrings(JStr("DAY_DIFF>"), LeafOperators) by {
      forall op | op in LeafOperators
        ensures |op| < |"DAY_DIFF>"|
      {
      }
    }
    assert ValidateConditions(JObj(fields), dataType) == LeafCheck(fields, dataType);
  }

  /** A top-level dict with neither a `metric` nor an `operator` with `sub_conditions` is rejected, and so is a top-level value that is neither a list nor a dict. */
  lemma ShapeRejected(c: Json, dataType: Json)
    ensures c.JObj? && !HasKey(c.fields, "metric") && !(HasKey(c.fields, "operator") && HasKey(c.fields, "sub_conditions"))
            ==> ValidateConditions(c, dataType) == Ok(Fail(NotLeafOrGroup))
    ensures !c.JObj? && !c.JArr? ==> ValidateConditions(c, dataType) == Ok(Fail(NotListOrDict))
    ensures c.JObj? && !HasKey(c.fields, "metric") && HasKey(c.fields, "operator") && HasKey(c.fields, "sub_conditions")
            && !InStrings(Lookup(c.fields, "operator").value, GroupOperators)
            ==> ValidateConditions(c, dataType) == Ok(Fail(BadGroupOperator))
  {
  }

  // ---------------------------------------------------------------- actions

  /** Declarative reading of a valid action: a dict with `type` sms or email and a string `message`. */
  predicate ActionValid(a: Json) {
    a.JObj? && HasKey(a.fields, "type") && InStrings(Lookup(a.fields, "type").value, ["sms", "email"])
    && HasKey(a.fields, "message") && Lookup(a.fields, "message").value.JStr?
  }

  /** The reasons the actions loop can give. */
  predicate IsActionReason(reason: Reason) {
    reason.BadActionType? || reason.NonStringMessage?
  }

  /** The checks of one action: `None` when it passes, else the reason. */
  function ActionCheck(a: Json): (r: Result<Option<Reason>, PyError>)
    ensures r.Ok? && r.value.Some? ==> IsActionReason(r.value.value)
  {
    match PyIn("type", a)
    case Err(e) => Err(e)
    case Ok(hasType) =>
      if !hasType then Ok(Some(BadActionType))
      else
        match PyIndex(a, "type")
        case Err(e) => Err(e)
        case Ok(kind) =>
          if !InStrings(kind, ["sms", "email"]) then Ok(Some(BadActionType))
          else
            match PyIn("message", a)
            case Err(e) => Err(e)
            case Ok(hasMessage) =>
              if !hasMessage then Ok(Some(NonStringMessage))
              else
                match PyIndex(a, "message")
                case Err(e) => Err(e)
                case Ok(m) => if m.JStr? then Ok(None) else Ok(Some(NonStringMessage))
  }

  /** The actions loop from item `i` on: the first action that fails. */
  function ActionsFrom(actions: seq<Json>, i: nat): (r: Result<Option<Reason>, PyError>)
    requires i <= |actions|
    ensures r == Ok(None) <==> AllFrom(ActionValid, actions, i)
    ensures r.Ok? && r.value.Some? ==> IsActionReason(r.value.value)
    decreases |actions| - i
  {
    if i == |actions| then Ok(None)
    else
      ActionCheckIff(actions[i]);
      match ActionCheck(actions[i])
      case Err(e) => Err(e)
      case Ok(Some(reason)) => Ok(Some(reason))
      case Ok(None) => ActionsFrom(actions, i + 1)
  }

  /** `p` holds of every item from index `i` on. */
  predicate AllFrom(p: Json -> bool, xs: seq<Json>, i: nat)
    requires i <= |xs|
    decreases |xs| - i
  {
    i == |xs| || (p(xs[i]) && AllFrom(p, xs, i + 1))
  }

  lemma {:induction false} AllFromIff(p: Json -> bool, xs: seq<Json>, i: nat)
    requires i <= |xs|
    ensures AllFrom(p, xs, i) <==> forall k :: i <= k < |xs| ==> p(xs[k])
    decreases |xs| - i
  {
    if i < |xs| {
      AllFromIff(p, xs, i + 1);
    }
  }

  /** One action passes exactly when it is valid in the declarative sense. */
  lemma ActionCheckIff(a: Json)
    ensures ActionCheck(a) == Ok(None) <==> ActionValid(a)
  {
  }

  /** `for action in rule['actions']`: iterating a value that is not a container is a TypeError. */
  function ActionsCheck(actions: Json): (r: Result<Option<Reason>, PyError>)
    ensures r.Ok? && r.value.Some? ==> IsActionReason(r.value.value)
  {
    match PyIter(actions)
    case Err(e) => Err(e)
    case Ok(items) => ActionsFrom(items, 0)
  }

  /** The actions stage passes exactly when `actions` is iterable and every item in it is a valid action. */
  lemma ActionsCheckIff(actions: Json)
    ensures ActionsCheck(actions) == Ok(None)
            <==> PyIter(actions).Ok? && forall a :: a in PyIter(actions).value ==> ActionValid(a)
  {
    if PyIter(actions).Ok? {
      var items := PyIter(actions).value;
      AllFromIff(ActionValid, items, 0);
      assert forall a :: a in items <==> exists k :: 0 <= k < |items| && items[k] == a;
    }
  }

  // ---------------------------------------------------------------- the rule

  /** The first of `fields` that `rule` lacks. */
  function FirstMissing(rule: seq<(string, Json)>, fields: seq<string>): (r: Option<string>)
    ensures r.None? <==> forall f :: f in fields ==> HasKey(rule, f)
    ensures r.Some? ==> r.value in fields && !HasKey(rule, r.value)
  {
    if fields == [] then None
    else if !HasKey(rule, fields[0]) then Some(fields[0])
    else FirstMissing(rule, fields[1..])
  }

  /** The field reported missing is the first missing one in list order. */
  lemma {:induction false} FirstMissingIsFirst(rule: seq<(string, Json)>, fields: seq<string>)
    requires FirstMissing(rule, fields).Some?
    ensures exists k :: 0 <= k < |fields| && fields[k] == FirstMissing(rule, fields).value
                        && forall j :: 0 <= j < k ==> HasKey(rule, fields[j])
  {
    if HasKey(rule, fields[0]) {
      FirstMissingIsFirst(rule, fields[1..]);
      var k :| 0 <= k < |fields[1..]| && fields[1..][k] == FirstMissing(rule, fields[1..]).value
               && forall j :: 0 <= j < k ==> HasKey(rule, fields[1..][j]);
      assert fields[k + 1] == FirstMissing(rule, fields).value;
      forall j | 0 <= j < k + 1
        ensures HasKey(rule, fields[j])
      {
        if j > 0 {
          assert fields[j] == fields[1..][j - 1];
        }
      }
    } else {
      assert fields[0] == FirstMissing(rule, fields).value;
    }
  }

  /** A checker of the `conditions` of a rule, given its data type. */
  type ConditionsCheck = (Json, Json) -> Result<Check, PyError>

  /** `int(rule['priority'])` and the range check: `None` for an integer in 1..10. */
  function PriorityCheck(priority: Json): (r: Option<Reason>)
    ensures r.None? <==> IntOf(priority).Ok? && 1 <= IntOf(priority).value <= 10
    ensures r.Some? ==> (r.value == PriorityNotInteger <==> IntOf(priority).Err?)
    ensures r.Some? ==> r.value in {PriorityNotInteger, PriorityOutOfRange}
  {
    match IntOf(priority)
    case Err(_) => Some(PriorityNotInteger)
    case Ok(p) => if 1 <= p <= 10 then None else Some(PriorityOutOfRange)
  }

  /** `isinstance(rule['stop_on_match'], bool)`, a missing key giving `None`. */
  predicate StopOnMatchOk(rule: seq<(string, Json)>) {
    HasKey(rule, "stop_on_match") && PyGet(rule, "stop_on_match").JBool?
  }

  /**
   * The stages after the priority, given the rule's `conditions`, `data_type`
   * and `actions` and whether its `stop_on_match` is a bool.
   */
  function LaterStages(check: ConditionsCheck, conditions: Json, dataType: Json, actions: Json, stopOk: bool)
    : (r: Result<Check, PyError>)
    ensures r.Ok? ==> !r.value.BareFalse?
  {
    match check(conditions, dataType)
    case Err(e) => Err(e)
    case Ok(BareFalse) => Err(TypeError)
    case Ok(Fail(reason)) => Ok(Fail(reason))
    case Ok(Pass) =>
      match ActionsCheck(actions)
      case Err(e) => Err(e)
      case Ok(Some(reason)) => Ok(Fail(reason))
      case Ok(None) => if stopOk then Ok(Pass) else Ok(Fail(StopOnMatchNotBool))
  }

  /** The stages once every required field is present: data type, priority, then the rest. */
  function FieldStages(check: ConditionsCheck, rule: seq<(string, Json)>): (r: Result<Check, PyError>)
    ensures r.Ok? ==> !r.value.BareFalse?
  {
    if !InStrings(PyGet(rule, "data_type"), ["forecast", "current"]) then Ok(Fail(BadDataType))
    else
      match PriorityCheck(PyGet(rule, "priority"))
      case Some(reason) => Ok(Fail(reason))
      case None =>
        LaterStages(check, PyGet(rule, "conditions"), PyGet(rule, "data_type"), PyGet(rule, "actions"), StopOnMatchOk(rule))
  }

  /**
   * `validate_rule` with the conditions checker `check`: the historical-test
   * guard, the required fields, then data type, priority, conditions, actions
   * and `stop_on_match`, the first failure winning. Unpacking a bare `False`
   * from the checker would be a TypeError.
   */
  function ValidateRuleWith(check: ConditionsCheck, rule: seq<(string, Json)>): (r: Result<Check, PyError>)
    ensures r.Ok? ==> !r.value.BareFalse?
  {
    if PyGet(rule, "action") == JStr("test_historical") then Ok(Fail(HistoricalTest))
    else
      match FirstMissing(rule, RequiredFields)
      case Some(f) => Ok(Fail(MissingField(f)))
      case None => FieldStages(check, rule)
  }

  /** `validate_rule` as written. */
  function ValidateRule(rule: seq<(string, Json)>): Result<Check, PyError> {
    ValidateRuleWith(ValidateConditions, rule)
  }

  /** `validate_rule` with nested failures reported. */
  function ValidateRuleStrict(rule: seq<(string, Json)>): Result<Check, PyError> {
    ValidateRuleWith(StrictConditions, rule)
  }

  /** Every stage passed, in the declarative sense, with `conds` the verdict on the conditions. */
  predicate StagesPass(rule: seq<(string, Json)>, conds: ConditionsCheck) {
    PyGet(rule, "action") != JStr("test_historical")
    && (forall f :: f in RequiredFields ==> HasKey(rule, f))
    && InStrings(PyGet(rule, "data_type"), ["forecast", "current"])
    && PriorityCheck(PyGet(rule, "priority")).None?
    && conds(PyGet(rule, "conditions"), PyGet(rule, "data_type")) == Ok(Pass)
    && PyIter(PyGet(rule, "actions")).Ok?
    && (forall a :: a in PyIter(PyGet(rule, "actions")).value ==> ActionValid(a))
    && StopOnMatchOk(rule)
  }

  /** `(True, None)` exactly when no check fails. */
  lemma RuleAccepted(rule: seq<(string, Json)>)
    ensures ValidateRule(rule) == Ok(Pass) <==> StagesPass(rule, ValidateConditions)
  {
    AcceptedIffStagesPass(ValidateConditions, rule);
  }

  /** An accepted rule has a known data type, an integer priority in 1..10 and a boolean `stop_on_match`. */
  lemma AcceptedRuleFields(rule: seq<(string, Json)>)
    requires ValidateRule(rule) == Ok(Pass)
    ensures PyGet(rule, "data_type") == JStr("forecast") || PyGet(rule, "data_type") == JStr("current")
    ensures IntOf(PyGet(rule, "priority")).Ok? && 1 <= IntOf(PyGet(rule, "priority")).value <= 10
    ensures HasKey(rule, "stop_on_match") && PyGet(rule, "stop_on_match").JBool?
  {
    RuleAccepted(rule);
  }

  lemma AcceptedIffStagesPass(check: ConditionsCheck, rule: seq<(string, Json)>)
    ensures ValidateRuleWith(check, rule) == Ok(Pass) <==> StagesPass(rule, check)
  {
    AcceptedIffAllStages(check, rule);
    ActionsCheckIff(PyGet(rule, "actions"));
    var all := forall j :: 0 <= j <= 6 ==> StagePasses(check, rule, j);
    if all {
      assert StagePasses(check, rule, 0) && StagePasses(check, rule, 1) && StagePasses(check, rule, 2);
      assert StagePasses(check, rule, 3) && StagePasses(check, rule, 4) && StagePasses(check, rule, 5);
      assert StagePasses(check, rule, 6);
    }
  }

  /** The stage of `validate_rule` that reports each reason, in the order the stages run. */
  function StageOf(reason: Reason): (k: nat)
    ensures k <= 6
    ensures k == 4 <==> IsConditionReason(reason)
  {
    if reason.HistoricalTest? then 0
    else if reason.MissingField? then 1
    else if reason.BadDataType? then 2
    else if reason.PriorityNotInteger? || reason.PriorityOutOfRange? then 3
    else if IsActionReason(reason) then 5
    else if reason.StopOnMatchNotBool? then 6
    else 4
  }

  /** Stage `k` of `validate_rule`, with conditions checker `check`, lets the rule through. */
  predicate StagePasses(check: ConditionsCheck, rule: seq<(string, Json)>, k: nat) {
    match k
    case 0 => PyGet(rule, "action") != JStr("test_historical")
    case 1 => FirstMissing(rule, RequiredFields).None?
    case 2 => InStrings(PyGet(rule, "data_type"), ["forecast", "current"])
    case 3 => PriorityCheck(PyGet(rule, "priority")).None?
    case 4 => check(PyGet(rule, "conditions"), PyGet(rule, "data_type")) == Ok(Pass)
    case 5 => ActionsCheck(PyGet(rule, "actions")) == Ok(None)
    case _ => StopOnMatchOk(rule)
  }

  /** The checker rejects only with reasons of the conditions stage. */
  ghost predicate ReportsConditionReasons(check: ConditionsCheck) {
    forall c, d :: check(c, d).Ok? && check(c, d).value.Fail? ==> IsConditionReason(check(c, d).value.reason)
  }

  /** Both conditions checkers report only conditions reasons. */
  lemma CheckersReportConditionReasons()
    ensures ReportsConditionReasons(ValidateConditions)
    ensures ReportsConditionReasons(StrictConditions)
  {
    forall c, d
      ensures ValidateConditions(c, d).Ok? && ValidateConditions(c, d).value.Fail? ==> IsConditionReason(ValidateConditions(c, d).value.reason)
      ensures StrictConditions(c, d).Ok? && StrictConditions(c, d).value.Fail? ==> IsConditionReason(StrictConditions(c, d).value.reason)
    {
    }
  }

  lemma ConditionStage(reason: Reason)
    requires IsConditionReason(reason)
    ensures StageOf(reason) == 4
  {
  }

  /** The later stages applied to `rule`. */
  function RuleLaterStages(check: ConditionsCheck, rule: seq<(string, Json)>): Result<Check, PyError> {
    LaterStages(check, PyGet(rule, "conditions"), PyGet(rule, "data_type"), PyGet(rule, "actions"), StopOnMatchOk(rule))
  }

  /** Past the first four stages, the later stages decide. */
  lemma EarlyStagesPassed(check: ConditionsCheck, rule: seq<(string, Json)>)
    requires StagePasses(check, rule, 0) && StagePasses(check, rule, 1)
    requires StagePasses(check, rule, 2) && StagePasses(check, rule, 3)
    ensures ValidateRuleWith(check, rule) == RuleLaterStages(check, rule)
  {
  }

  lemma ActionStage(reason: Reason)
    requires IsActionReason(reason)
    ensures StageOf(reason) == 5
  {
  }

  /** The order of the last three stages. */
  lemma LaterStageOrder(check: ConditionsCheck, conditions: Json, dataType: Json, actions: Json, stopOk: bool)
    requires ReportsConditionReasons(check)
    ensures var r := LaterStages(check, conditions, dataType, actions, stopOk);
            r.Ok? && r.value.Fail? ==>
              (StageOf(r.value.reason) == 4 && check(conditions, dataType) != Ok(Pass))
              || (StageOf(r.value.reason) == 5 && check(conditions, dataType) == Ok(Pass) && ActionsCheck(actions) != Ok(None))
              || (StageOf(r.value.reason) == 6 && check(conditions, dataType) == Ok(Pass) && ActionsCheck(actions) == Ok(None)
                  && !stopOk)
  {
    var r := LaterStages(check, conditions, dataType, actions, stopOk);
    var c := check(conditions, dataType);
    if r.Ok? && r.value.Fail? {
      if c != Ok(Pass) {
        assert c.Ok? && c.value.Fail? && r == c;
      } else {
        var a := ActionsCheck(actions);
        if a != Ok(None) {
          assert r == Ok(Fail(a.value.value));
          ActionStage(a.value.value);
        } else {
          assert r == Ok(Fail(StopOnMatchNotBool));
        }
      }
    }
  }

  /**
   * The checks run in a fixed order and the first failure is reported: a
   * rejection at one stage means every earlier stage passed and that one did not.
   */
  lemma StageOrder(check: ConditionsCheck, rule: seq<(string, Json)>)
    requires ReportsConditionReasons(check)
    ensures var r := ValidateRuleWith(check, rule);
            r.Ok? && r.value.Fail? ==>
              var k := StageOf(r.value.reason);
              !StagePasses(check, rule, k) && forall j :: 0 <= j < k ==> StagePasses(check, rule, j)
  {
    var r := ValidateRuleWith(check, rule);
    if r.Ok? && r.value.Fail? {
      var k := StageOf(r.value.reason);
      if !StagePasses(check, rule, 0) {
        assert r == Ok(Fail(HistoricalTest));
      } else if !StagePasses(check, rule, 1) {
        assert r == Ok(Fail(MissingField(FirstMissing(rule, RequiredFields).value)));
      } else if !StagePasses(check, rule, 2) {
        assert r == Ok(Fail(BadDataType));
      } else if !StagePasses(check, rule, 3) {
        assert r == Ok(Fail(PriorityCheck(PyGet(rule, "priority")).value));
      } else {
        EarlyStagesPassed(check, rule);
        LaterStageOrder(check, PyGet(rule, "conditions"), PyGet(rule, "data_type"), PyGet(rule, "actions"), StopOnMatchOk(rule));
      }
    }
  }

  /** The last three stages accept exactly when each of them does. */
  lemma LaterStagesPass(check: ConditionsCheck, conditions: Json, dataType: Json, actions: Json, stopOk: bool)
    ensures LaterStages(check, conditions, dataType, actions, stopOk) == Ok(Pass)
            <==> check(conditions, dataType) == Ok(Pass) && ActionsCheck(actions) == Ok(None) && stopOk
  {
  }

  /** A rule is accepted exactly when every stage lets it through. */
  lemma AcceptedIffAllStages(check: ConditionsCheck, rule: seq<(string, Json)>)
    ensures ValidateRuleWith(check, rule) == Ok(Pass) <==> forall j :: 0 <= j <= 6 ==> StagePasses(check, rule, j)
  {
    var early := StagePasses(check, rule, 0) && StagePasses(check, rule, 1)
                 && StagePasses(check, rule, 2) && StagePasses(check, rule, 3);
    if early {
      EarlyStagesPassed(check, rule);
      LaterStagesPass(check, PyGet(rule, "conditions"), PyGet(rule, "data_type"), PyGet(rule, "actions"), StopOnMatchOk(rule));
    }
    if forall j :: 0 <= j <= 6 ==> StagePasses(check, rule, j) {
      assert StagePasses(check, rule, 0) && StagePasses(check, rule, 1) && StagePasses(check, rule, 2);
      assert StagePasses(check, rule, 3) && StagePasses(check, rule, 4) && StagePasses(check, rule, 5);
      assert StagePasses(check, rule, 6);
    }
  }

  /** The historical-test guard runs before any other check, and nothing else gives its reason. */
  lemma HistoricalFirst(rule: seq<(string, Json)>)
    ensures ValidateRule(rule) == Ok(Fail(HistoricalTest)) <==> PyGet(rule, "action") == JStr("test_historical")
  {
    CheckersReportConditionReasons();
    StageOrder(ValidateConditions, rule);
  }

  /** The order of the checks, for `validate_rule` as written. */
  lemma RuleStageOrder(rule: seq<(string, Json)>)
    ensures var r := ValidateRule(rule);
            r.Ok? && r.value.Fail? ==>
              var k := StageOf(r.value.reason);
              !StagePasses(ValidateConditions, rule, k) && forall j :: 0 <= j < k ==> StagePasses(ValidateConditions, rule, j)
  {
    CheckersReportConditionReasons();
    StageOrder(ValidateConditions, rule);
  }

  /** The corrected validator accepts a rule exactly when the stages pass with every node of its conditions valid. */
  lemma StrictRuleAccepted(rule: seq<(string, Json)>)
    ensures ValidateRuleStrict(rule) == Ok(Pass) <==> StagesPass(rule, StrictConditions)
    ensures ValidateRuleStrict(rule) == Ok(Pass) ==>
              WellFormed(PyGet(rule, "conditions"), PyGet(rule, "data_type"))
  {
    AcceptedIffStagesPass(StrictConditions, rule);
    if ValidateRuleStrict(rule) == Ok(Pass) {
      StrictIffWellFormed(PyGet(rule, "conditions"), PyGet(rule, "data_type"));
    }
  }
}

/**
 * The rule dispatch of `lambda_handler`: which table and snapshot the rules of
 * an invocation see, the
 * priority order of the rules, and the loop that evaluates them, sends the
 * email alerts of the rules that trigger and stops at the first triggered
 * rule whose `stop_on_match` holds.
 */
module RuleDispatch {
  import opened Wrappers
  import opened PyJson
  import opened PyInt
  import StableSort
  import opened WeatherStore
  import opened Conditions

  /** What the rules of an invocation are selected by: the farm, the stakeholder and the data type. */
  datatype Selection = Selection(farm: string, stakeholder: string, dataType: string)

  // ---------------------------------------------------------------- table and snapshot

  /** The two weather tables. */
  datatype Store = Store(forecast: seq<Row>, current: seq<Row>)

  /** `forecast_weather` for the data type "forecast", `current_weather` for any other. */
  function TableFor(store: Store, dataType: string): seq<Row> {
    if dataType == "forecast" then store.forecast else store.current
  }

  /** The six columns the snapshot query selects; solar radiation is not among them. */
  const SnapshotColumns: set<Metric> := {Temperature, Humidity, WindSpeed, WindDirection, Rainfall, ChanceOfRain}

  /**
   * `data`: the selected columns of the farm's newest row of the last day,
   * or `{}` when there is none.
   */
  function Snapshot(rows: seq<Row>, farm: string, now: int): (m: map<Metric, real>)
    ensures Latest(rows, farm, now - MinutesPerDay).None? ==> m == map[]
    ensures Latest(rows, farm, now - MinutesPerDay).Some? ==>
      var row := Latest(rows, farm, now - MinutesPerDay).value;
      (forall k :: k in m <==> k in SnapshotColumns && k in row.readings)
      && forall k :: k in m ==> m[k] == row.readings[k]
  {
    match Latest(rows, farm, now - MinutesPerDay)
    case None => map[]
    case Some(row) => map k | k in row.readings && k in SnapshotColumns :: row.readings[k]
  }

  lemma SnapshotLacksSolar(rows: seq<Row>, farm: string, now: int)
    ensures SolarRadiation !in Snapshot(rows, farm, now)
  {
  }

  // ---------------------------------------------------------------- priority order

  /** An action of a rule; `None` stands for a missing key. */
  datatype Action = Action(kind: Option<Json>, message: Option<Json>)

  /** A rule item as the catalog query returns it; `None` stands for a missing key. */
  datatype Item = Item(
    ruleId: Option<Json>, name: Option<string>, priority: Option<Json>, dataType: Option<Json>,
    conditions: Option<Condition>, actions: Option<seq<Action>>, stopOnMatch: Option<Json>)

  /** `int(x['priority'])`. */
  function KeyOf(x: Item): (r: Result<int, PyError>)
    ensures x.priority.None? ==> r == Err(KeyError)
    ensures x.priority.Some? ==> r == IntOf(x.priority.value)
  {
    match x.priority
    case None => Err(KeyError)
    case Some(p) => IntOf(p)
  }

  /** The sort key of an item whose priority converts (0 for one that does not). */
  function PriorityOf(x: Item): (p: int)
    ensures KeyOf(x).Ok? ==> p == KeyOf(x).value
  {
    match KeyOf(x)
    case Ok(k) => k
    case Err(_) => 0
  }

  /** The exception of the first item, in catalog order, whose priority does not convert. */
  function FirstKeyFault(items: seq<Item>): (r: Option<PyError>)
    ensures r.None? <==> forall k :: 0 <= k < |items| ==> KeyOf(items[k]).Ok?
  {
    if items == [] then None
    else
      assert forall k :: 1 <= k < |items| ==> items[k] == items[1..][k - 1];
      match KeyOf(items[0])
      case Err(e) => Some(e)
      case Ok(_) => FirstKeyFault(items[1..])
  }

  /** The fault reported is that of the first item whose priority does not convert. */
  lemma {:induction false} FirstKeyFaultIsFirst(items: seq<Item>)
    requires FirstKeyFault(items).Some?
    ensures exists k :: 0 <= k < |items| && KeyOf(items[k]) == Err(FirstKeyFault(items).value)
                        && forall j :: 0 <= j < k ==> KeyOf(items[j]).Ok?
  {
    if KeyOf(items[0]).Ok? {
      var rest := items[1..];
      FirstKeyFaultIsFirst(rest);
      var k :| 0 <= k < |rest| && KeyOf(rest[k]) == Err(FirstKeyFault(rest).value)
               && forall j :: 0 <= j < k ==> KeyOf(rest[j]).Ok?;
      assert KeyOf(items[k + 1]) == Err(FirstKeyFault(items).value);
      forall j | 0 <= j < k + 1
        ensures KeyOf(items[j]).Ok?
      {
        if j > 0 {
          assert items[j] == rest[j - 1];
        }
      }
    } else {
      assert KeyOf(items[0]) == Err(FirstKeyFault(items).value);
    }
  }

  /**
   * `sorted(items, key=lambda x: int(x['priority']))`: Python computes every
   * key first, so one that does not convert fails the sort; otherwise the
   * result is the items reordered by ascending priority.
   */
  function SortRules(items: seq<Item>): (r: Result<seq<Item>, PyError>)
    ensures r.Err? <==> exists k :: 0 <= k < |items| && KeyOf(items[k]).Err?
    ensures r.Ok? ==> multiset(r.value) == multiset(items)
    ensures r.Ok? ==> StableSort.SortedBy(r.value, PriorityOf)
  {
    match FirstKeyFault(items)
    case Some(e) => Err(e)
    case None => Ok(StableSort.SortBy(items, PriorityOf))
  }

  /** Items of equal priority keep their catalog order. */
  lemma SortRulesStable(items: seq<Item>, p: int)
    requires SortRules(items).Ok?
    ensures StableSort.WithKey(SortRules(items).value, PriorityOf, p) == StableSort.WithKey(items, PriorityOf, p)
  {
    StableSort.SortByStable(items, PriorityOf, p);
  }

  // ---------------------------------------------------------------- the listing

  /** A rule the listing accepted: the keys the listing indexes are present. */
  datatype Rule = Rule(
    ruleId: Json, name: string, priority: int, dataType: Option<Json>,
    conditions: Condition, actions: Option<seq<Action>>, stopOnMatch: Option<Json>)

  predicate Listable(x: Item) {
    x.ruleId.Some? && x.name.Some? && x.priority.Some? && x.conditions.Some?
  }

  function ToRule(x: Item): Rule
    requires Listable(x)
  {
    Rule(x.ruleId.value, x.name.value, PriorityOf(x), x.dataType, x.conditions.value, x.actions, x.stopOnMatch)
  }

  /**
   * The listing loop indexes `rule_id`, `name`, `priority` and `conditions` of
   * every sorted rule, so one of them missing in any rule is a KeyError before
   * any rule is evaluated.
   */
  function Listed(items: seq<Item>): (r: Result<seq<Rule>, PyError>)
    ensures r.Ok? <==> forall k :: 0 <= k < |items| ==> Listable(items[k])
    ensures r.Err? ==> r.error == KeyError
    ensures r.Ok? ==> |r.value| == |items| && forall k :: 0 <= k < |items| ==> r.value[k] == ToRule(items[k])
  {
    if items == [] then Ok([])
    else if !Listable(items[0]) then Err(KeyError)
    else
      match Listed(items[1..])
      case Err(e) => Err(e)
      case Ok(rest) =>
        assert forall k :: 1 <= k < |items| ==> items[k] == items[1..][k - 1];
        Ok([ToRule(items[0])] + rest)
  }

  // ---------------------------------------------------------------- alerts

  /** An email alert handed to the notification topic. */
  datatype Email = Email(subject: string, message: Json)

  function Subject(name: string, farm: string): string {
    "Weather Alert: Rule " + name + " Triggered for " + farm
  }

  predicate IsEmail(a: Action) {
    a.kind == Some(JStr("email"))
  }

  /** An action the actions loop gets through: it has a `type`, and a `message` when it is an email or an SMS. */
  predicate ActionOk(a: Action) {
    a.kind.Some? && (a.kind.value == JStr("email") || a.kind.value == JStr("sms") ==> a.message.Some?)
  }

  /**
   * The actions loop of a triggered rule: the emails it sends, in order, and
   * the exception that cut it short. A failed publish is caught and logged,
   * so it does not change the outcome.
   */
  function Alerts(actions: seq<Action>, subject: string): (r: (seq<Email>, Option<PyError>))
    ensures r.1.None? <==> forall j :: 0 <= j < |actions| ==> ActionOk(actions[j])
    ensures r.1.Some? ==> r.1.value == KeyError
    ensures |r.0| <= |actions|
    ensures forall e :: e in r.0 ==> e.subject == subject
    ensures forall e :: e in r.0 ==> exists a :: a in actions && IsEmail(a) && a.message == Some(e.message)
  {
    if actions == [] then ([], None)
    else
      var a := actions[0];
      if !ActionOk(a) then ([], Some(KeyError))
      else
        var rest := Alerts(actions[1..], subject);
        assert forall j :: 1 <= j < |actions| ==> actions[j] == actions[1..][j - 1];
        assert forall x :: x in actions[1..] ==> x in actions;
        ((if IsEmail(a) then [Email(subject, a.message.value)] else []) + rest.0, rest.1)
  }

  /** Without a faulty action, one email is sent per email action. */
  lemma {:induction false} AlertsPerEmail(actions: seq<Action>, subject: string)
    requires forall j :: 0 <= j < |actions| ==> ActionOk(actions[j])
    ensures |Alerts(actions, subject).0| == |EmailActions(actions)|
  {
    if actions != [] {
      assert forall j :: 1 <= j < |actions| ==> actions[j] == actions[1..][j - 1];
      AlertsPerEmail(actions[1..], subject);
    }
  }

  /** The email actions of a rule, in order. */
  function EmailActions(actions: seq<Action>): (r: seq<Action>)
    ensures forall a :: a in r <==> a in actions && IsEmail(a)
  {
    if actions == [] then []
    else (if IsEmail(actions[0]) then [actions[0]] else []) + EmailActions(actions[1..])
  }

  /** One round of the actions loop: a faulty action ends it, any other adds its email, if any, to the rest. */
  lemma AlertsStep(actions: seq<Action>, subject: string)
    requires actions != []
    ensures !ActionOk(actions[0]) ==> Alerts(actions, subject) == ([], Some(KeyError))
    ensures ActionOk(actions[0]) ==>
              Alerts(actions, subject).1 == Alerts(actions[1..], subject).1
              && Alerts(actions, subject).0
                 == (if IsEmail(actions[0]) then [Email(subject, actions[0].message.value)] else [])
                    + Alerts(actions[1..], subject).0
  {
  }

  method SendAlerts(actions: seq<Action>, subject: string) returns (sent: seq<Email>, fault: Option<PyError>)
    ensures sent == Alerts(actions, subject).0 && fault == Alerts(actions, subject).1
  {
    sent := [];
    fault := None;
    var j := 0;
    assert actions[j..] == actions;
    while j < |actions|
      invariant 0 <= j <= |actions|
      invariant sent + Alerts(actions[j..], subject).0 == Alerts(actions, subject).0
      invariant Alerts(actions[j..], subject).1 == Alerts(actions, subject).1
    {
      var a := actions[j];
      assert actions[j..][1..] == actions[j + 1..];
      AlertsStep(actions[j..], subject);
      if a.kind.None? {
        fault := Some(KeyError);
        return;
      }
      if a.kind.value == JStr("email") {
        if a.message.None? {
          fault := Some(KeyError);
          return;
        }
        sent := sent + [Email(subject, a.message.value)];
      } else if a.kind.value == JStr("sms") {
        if a.message.None? {
          fault := Some(KeyError);
          return;
        }
      }
      j := j + 1;
    }
    assert actions[j..] == [];
  }

  // ---------------------------------------------------------------- the dispatch loop

  /** What the rules loop produces: the triggered entries, the emails sent, and the exception that ended it. */
  datatype Run = Run(triggered: seq<Triggered>, sent: seq<Email>, fault: Option<PyError>)

  /** An entry of `triggered_actions`. */
  datatype Triggered = Triggered(ruleId: Json, actions: seq<Action>)

  /** `rule.get('stop_on_match', True)` is truthy. */
  predicate Stops(r: Rule) {
    Truthy(r.stopOnMatch.GetOr(JBool(true)))
  }

  /** The rule is for the invocation's data type and its conditions hold. */
  predicate Fires(ctx: Ctx, dataType: string, r: Rule) {
    r.dataType == Some(JStr(dataType)) && EvalConditions(ctx, r.conditions) == Value(true)
  }

  /** `prefix` then `rest`. */
  function Then(triggered: seq<Triggered>, sent: seq<Email>, rest: Run): Run {
    Run(triggered + rest.triggered, sent + rest.sent, rest.fault)
  }

  /** The rules loop over `rules` in order. */
  function RunRules(ctx: Ctx, dataType: string, rules: seq<Rule>): Run {
    if rules == [] then Run([], [], None)
    else
      var r := rules[0];
      match r.dataType
      case None => Run([], [], Some(KeyError))
      case Some(dt) =>
        if dt != JStr(dataType) then RunRules(ctx, dataType, rules[1..])
        else
          match EvalConditions(ctx, r.conditions)
          case Raised(e) => Run([], [], Some(e))
          case Value(holds) =>
            if !holds then RunRules(ctx, dataType, rules[1..])
            else
              match r.actions
              case None => Run([], [], Some(KeyError))
              case Some(acts) =>
                var alerts := Alerts(acts, Subject(r.name, ctx.farm));
                if alerts.1.Some? then Run([], alerts.0, alerts.1)
                else if Stops(r) then Run([Triggered(r.ruleId, acts)], alerts.0, None)
                else Then([Triggered(r.ruleId, acts)], alerts.0, RunRules(ctx, dataType, rules[1..]))
  }

  /** The rules loop of `lambda_handler`. */
  method DispatchRules(ctx: Ctx, dataType: string, rules: seq<Rule>) returns (run: Run)
    ensures run == RunRules(ctx, dataType, rules)
  {
    var triggered: seq<Triggered> := [];
    var sent: seq<Email> := [];
    var i := 0;
    while i < |rules|
      invariant 0 <= i <= |rules|
      invariant Then(triggered, sent, RunRules(ctx, dataType, rules[i..])) == RunRules(ctx, dataType, rules)
    {
      var rule := rules[i];
      assert rules[i..][0] == rule && rules[i..][1..] == rules[i + 1..];
      if rule.dataType.None? {
        return Run(triggered, sent, Some(KeyError));
      }
      if rule.dataType.value != JStr(dataType) {
        i := i + 1;
        continue;
      }
      var holds := EvalConditions(ctx, rule.conditions);
      if holds.Raised? {
        return Run(triggered, sent, Some(holds.error));
      }
      if holds.holds {
        if rule.actions.None? {
          return Run(triggered, sent, Some(KeyError));
        }
        var emails, fault := SendAlerts(rule.actions.value, Subject(rule.name, ctx.farm));
        sent := sent + emails;
        if fault.Some? {
          return Run(triggered, sent, fault);
        }
        triggered := triggered + [Triggered(rule.ruleId, rule.actions.value)];
        if Stops(rule) {
          break;
        }
      }
      i := i + 1;
    }
    return Run(triggered, sent, None);
  }

  // ---------------------------------------------------------------- the handler

  /** The handler's answer: status 200 with the triggered entries, or status 500 with the exception. */
  datatype Response = Success(triggered: seq<Triggered>) | Failure(error: PyError)

  /** The rules of a farm and stakeholder, as the catalog's index query returns them. */
  type Catalog = (string, string) -> seq<Item>

  /** What the rules of an invocation are evaluated against. */
  function HandlerCtx(store: Store, now: int, sel: Selection): Ctx {
    var rows := TableFor(store, sel.dataType);
    Ctx(rows, sel.farm, now, Snapshot(rows, sel.farm, now))
  }

  /**
   * `lambda_handler` from the point where the farm, stakeholder and data type
   * are known: its response and the emails it sent. Any exception becomes a
   * status-500 response.
   */
  function Handle(store: Store, now: int, sel: Selection, catalog: Catalog): (Response, seq<Email>) {
    match SortRules(catalog(sel.farm, sel.stakeholder))
    case Err(e) => (Failure(e), [])
    case Ok(sorted) =>
      match Listed(sorted)
      case Err(e) => (Failure(e), [])
      case Ok(rules) =>
        var run := RunRules(HandlerCtx(store, now, sel), sel.dataType, rules);
        (if run.fault.Some? then Failure(run.fault.value) else Success(run.triggered), run.sent)
  }

  method LambdaHandler(store: Store, now: int, sel: Selection, catalog: Catalog) returns (response: Response, sent: seq<Email>)
    ensures (response, sent) == Handle(store, now, sel, catalog)
  {
    var ctx := HandlerCtx(store, now, sel);
    var sorted := SortRules(catalog(sel.farm, sel.stakeholder));
    if sorted.Err? {
      return Failure(sorted.error), [];
    }
    var listed := Listed(sorted.value);
    if listed.Err? {
      return Failure(listed.error), [];
    }
    var run := DispatchRules(ctx, sel.dataType, listed.value);
    sent := run.sent;
    if run.fault.Some? {
      response := Failure(run.fault.value);
    } else {
      response := Success(run.triggered);
    }
  }
}

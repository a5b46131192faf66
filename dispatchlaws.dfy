/**
 * Laws of the rules loop: which rules end up in `triggered_actions`, in what
 * order, where the loop stops, and which rules it never looks at.
 */
module DispatchLaws {
  import opened Wrappers
  import opened PyJson
  import opened Conditions
  import opened RuleDispatch

  /** The entry `triggered_actions` gets for a rule. */
  function EntryOf(r: Rule): Triggered {
    Triggered(r.ruleId, r.actions.GetOr([]))
  }

  function Entries(rules: seq<Rule>): (es: seq<Triggered>)
    ensures |es| == |rules|
    ensures forall k :: 0 <= k < |rules| ==> es[k] == EntryOf(rules[k])
  {
    if rules == [] then [] else [EntryOf(rules[0])] + Entries(rules[1..])
  }

  /**
   * Reference definition of the rules that trigger: the ones that fire, in
   * order, up to and including the first that fires and stops.
   */
  function Fired(ctx: Ctx, dataType: string, rules: seq<Rule>): (f: seq<Rule>)
    ensures |f| <= |rules|
    ensures forall r :: r in f ==> r in rules && Fires(ctx, dataType, r)
  {
    if rules == [] then []
    else if Fires(ctx, dataType, rules[0]) then
      (if Stops(rules[0]) then [rules[0]] else [rules[0]] + Fired(ctx, dataType, rules[1..]))
    else Fired(ctx, dataType, rules[1..])
  }

  predicate PrioritySorted(rules: seq<Rule>) {
    forall i, j :: 0 <= i < j < |rules| ==> rules[i].priority <= rules[j].priority
  }

  /** When the loop ends without an exception, it has triggered exactly the fired rules, in order. */
  lemma {:induction false} RunIsFired(ctx: Ctx, dataType: string, rules: seq<Rule>)
    requires RunRules(ctx, dataType, rules).fault.None?
    ensures RunRules(ctx, dataType, rules).triggered == Entries(Fired(ctx, dataType, rules))
  {
    if rules != [] {
      var r := rules[0];
      if Fires(ctx, dataType, r) {
        if !Stops(r) {
          RunIsFired(ctx, dataType, rules[1..]);
          assert Fired(ctx, dataType, rules) == [r] + Fired(ctx, dataType, rules[1..]);
        }
      } else if r.dataType == Some(JStr(dataType)) {
        RunIsFired(ctx, dataType, rules[1..]);
      } else {
        RunIsFired(ctx, dataType, rules[1..]);
      }
    }
  }

  /** Only the last fired rule can be one that stops. */
  lemma {:induction false} FiredStopsLast(ctx: Ctx, dataType: string, rules: seq<Rule>)
    ensures forall k :: 0 <= k < |Fired(ctx, dataType, rules)| - 1 ==> !Stops(Fired(ctx, dataType, rules)[k])
  {
    if rules != [] {
      FiredStopsLast(ctx, dataType, rules[1..]);
      var rest := Fired(ctx, dataType, rules[1..]);
      if Fires(ctx, dataType, rules[0]) && !Stops(rules[0]) {
        assert forall k :: 1 <= k < |rest| + 1 ==> ([rules[0]] + rest)[k] == rest[k - 1];
      }
    }
  }

  /** A rule no later than any of a sorted list, put in front of it, keeps it sorted. */
  lemma ConsSorted(x: Rule, rest: seq<Rule>)
    requires PrioritySorted(rest)
    requires forall r :: r in rest ==> x.priority <= r.priority
    ensures PrioritySorted([x] + rest)
  {
    var f := [x] + rest;
    forall i, j | 0 <= i < j < |f|
      ensures f[i].priority <= f[j].priority
    {
      assert f[j] == rest[j - 1] && f[j] in rest;
      if i > 0 {
        assert f[i] == rest[i - 1];
      }
    }
  }

  /** Firing keeps the order of the rules, so priority order carries over. */
  lemma {:induction false} FiredSorted(ctx: Ctx, dataType: string, rules: seq<Rule>)
    requires PrioritySorted(rules)
    ensures PrioritySorted(Fired(ctx, dataType, rules))
  {
    if rules != [] {
      assert PrioritySorted(rules[1..]);
      FiredSorted(ctx, dataType, rules[1..]);
      var rest := Fired(ctx, dataType, rules[1..]);
      assert forall r :: r in rest ==> r in rules[1..];
      assert forall r :: r in rules[1..] ==> rules[0].priority <= r.priority;
      ConsSorted(rules[0], rest);
    }
  }

  /** A rule passes without effect: its data type is present and, when it matches, its conditions evaluate to false. */
  predicate Passes(ctx: Ctx, dataType: string, r: Rule) {
    r.dataType.Some? && (r.dataType.value == JStr(dataType) ==> EvalConditions(ctx, r.conditions) == Value(false))
  }

  /**
   * After rules that pass without effect, the first rule that fires, has
   * well-formed actions and stops ends the loop: the rules after it are never
   * evaluated.
   */
  lemma {:induction false} StopsAtFirstTrigger(ctx: Ctx, dataType: string, pre: seq<Rule>, r: Rule, post: seq<Rule>)
    requires forall x :: x in pre ==> Passes(ctx, dataType, x)
    requires Fires(ctx, dataType, r) && Stops(r) && r.actions.Some?
    requires forall j :: 0 <= j < |r.actions.value| ==> ActionOk(r.actions.value[j])
    ensures RunRules(ctx, dataType, pre + [r] + post)
         == Run([Triggered(r.ruleId, r.actions.value)], Alerts(r.actions.value, Subject(r.name, ctx.farm)).0, None)
  {
    var rules := pre + [r] + post;
    if pre == [] {
      assert rules[0] == r;
      assert Alerts(r.actions.value, Subject(r.name, ctx.farm)).1.None?;
    } else {
      assert rules[0] == pre[0] && pre[0] in pre;
      assert rules[1..] == pre[1..] + [r] + post;
      assert forall x :: x in pre[1..] ==> x in pre;
      assert RunRules(ctx, dataType, rules) == RunRules(ctx, dataType, rules[1..]);
      StopsAtFirstTrigger(ctx, dataType, pre[1..], r, post);
    }
  }

  /** A rule for another data type is skipped: inserting it anywhere changes nothing. */
  lemma {:induction false} MismatchedRuleIgnored(ctx: Ctx, dataType: string, pre: seq<Rule>, r: Rule, post: seq<Rule>)
    requires r.dataType.Some? && r.dataType.value != JStr(dataType)
    ensures RunRules(ctx, dataType, pre + [r] + post) == RunRules(ctx, dataType, pre + post)
  {
    if pre == [] {
      assert (pre + [r] + post)[1..] == post;
      assert pre + post == post;
    } else {
      assert (pre + [r] + post)[0] == pre[0] && (pre + post)[0] == pre[0];
      assert (pre + [r] + post)[1..] == pre[1..] + [r] + post;
      assert (pre + post)[1..] == pre[1..] + post;
      MismatchedRuleIgnored(ctx, dataType, pre[1..], r, post);
    }
  }

  /**
   * A successful invocation answers with the entries of the rules that fired,
   * in ascending priority order (ties in catalog order, see `SortRulesStable`).
   */
  lemma HandleAnswersFiredRules(store: Store, now: int, sel: Selection, catalog: Catalog)
    requires Handle(store, now, sel, catalog).0.Success?
    ensures SortRules(catalog(sel.farm, sel.stakeholder)).Ok?
    ensures Listed(SortRules(catalog(sel.farm, sel.stakeholder)).value).Ok?
    ensures var rules := Listed(SortRules(catalog(sel.farm, sel.stakeholder)).value).value;
            var fired := Fired(HandlerCtx(store, now, sel), sel.dataType, rules);
            Handle(store, now, sel, catalog).0.triggered == Entries(fired) && PrioritySorted(fired)
  {
    var sorted := SortRules(catalog(sel.farm, sel.stakeholder)).value;
    var rules := Listed(sorted).value;
    var ctx := HandlerCtx(store, now, sel);
    assert PrioritySorted(rules) by {
      forall i, j | 0 <= i < j < |rules|
        ensures rules[i].priority <= rules[j].priority
      {
        assert rules[i].priority == PriorityOf(sorted[i]) && rules[j].priority == PriorityOf(sorted[j]);
      }
    }
    RunIsFired(ctx, sel.dataType, rules);
    FiredSorted(ctx, sel.dataType, rules);
  }

  /** No rules: status 200 with nothing triggered and nothing sent. */
  lemma NoRulesNoAlerts(store: Store, now: int, sel: Selection, catalog: Catalog)
    requires catalog(sel.farm, sel.stakeholder) == []
    ensures Handle(store, now, sel, catalog) == (Success([]), [])
  {
  }
}

/**
 * The laws of the tree walker, proved for every leaf evaluator: `all(...)`
 * and `any(...)` as quantifiers over the children with their short-circuit,
 * the degenerate groups, and NOT.
 */
module TreeLaws {
  import opened PyJson
  import opened Conditions

  // ---------------------------------------------------------------- all / any

  /** Every child from `i` on has outcome `v`. */
  predicate ChildrenFrom(leaf: LeafEval, ctx: Ctx, c: Condition, i: nat, v: Outcome) {
    forall k :: i <= k < |Children(c)| ==> ChildOutcome(leaf, ctx, c, k) == v
  }

  /** No child from `i` on raises. */
  predicate NoFaultFrom(leaf: LeafEval, ctx: Ctx, c: Condition, i: nat) {
    forall k :: i <= k < |Children(c)| ==> ChildOutcome(leaf, ctx, c, k).Value?
  }

  /** Some child from `i` on holds. */
  predicate SomeTrueFrom(leaf: LeafEval, ctx: Ctx, c: Condition, i: nat) {
    exists k :: i <= k < |Children(c)| && ChildOutcome(leaf, ctx, c, k) == Value(true)
  }

  lemma {:induction false} AllOfTrue(leaf: LeafEval, ctx: Ctx, c: Condition, i: nat)
    requires i <= |Children(c)|
    ensures AllOf(leaf, ctx, c, i) == Value(true) <==> ChildrenFrom(leaf, ctx, c, i, Value(true))
    decreases |Children(c)| - i
  {
    if i < |Children(c)| {
      AllOfTrue(leaf, ctx, c, i + 1);
    }
  }

  lemma {:induction false} AllOfStopsAt(leaf: LeafEval, ctx: Ctx, c: Condition, i: nat, j: nat)
    requires i <= j < |Children(c)|
    requires forall k :: i <= k < j ==> ChildOutcome(leaf, ctx, c, k) == Value(true)
    requires ChildOutcome(leaf, ctx, c, j) != Value(true)
    ensures AllOf(leaf, ctx, c, i) == ChildOutcome(leaf, ctx, c, j)
    decreases j - i
  {
    if i < j {
      AllOfStopsAt(leaf, ctx, c, i + 1, j);
    }
  }

  lemma {:induction false} AllOfNoFault(leaf: LeafEval, ctx: Ctx, c: Condition, i: nat)
    requires i <= |Children(c)|
    requires NoFaultFrom(leaf, ctx, c, i)
    ensures AllOf(leaf, ctx, c, i) == Value(ChildrenFrom(leaf, ctx, c, i, Value(true)))
    decreases |Children(c)| - i
  {
    if i < |Children(c)| {
      AllOfNoFault(leaf, ctx, c, i + 1);
    }
  }

  lemma {:induction false} AnyOfFalse(leaf: LeafEval, ctx: Ctx, c: Condition, i: nat)
    requires i <= |Children(c)|
    ensures AnyOf(leaf, ctx, c, i) == Value(false) <==> ChildrenFrom(leaf, ctx, c, i, Value(false))
    decreases |Children(c)| - i
  {
    if i < |Children(c)| {
      AnyOfFalse(leaf, ctx, c, i + 1);
    }
  }

  lemma {:induction false} AnyOfStopsAt(leaf: LeafEval, ctx: Ctx, c: Condition, i: nat, j: nat)
    requires i <= j < |Children(c)|
    requires forall k :: i <= k < j ==> ChildOutcome(leaf, ctx, c, k) == Value(false)
    requires ChildOutcome(leaf, ctx, c, j) != Value(false)
    ensures AnyOf(leaf, ctx, c, i) == ChildOutcome(leaf, ctx, c, j)
    decreases j - i
  {
    if i < j {
      AnyOfStopsAt(leaf, ctx, c, i + 1, j);
    }
  }

  lemma {:induction false} AnyOfNoFault(leaf: LeafEval, ctx: Ctx, c: Condition, i: nat)
    requires i <= |Children(c)|
    requires NoFaultFrom(leaf, ctx, c, i)
    ensures AnyOf(leaf, ctx, c, i) == Value(SomeTrueFrom(leaf, ctx, c, i))
    decreases |Children(c)| - i
  {
    if i < |Children(c)| {
      AnyOfNoFault(leaf, ctx, c, i + 1);
    }
  }

  // ---------------------------------------------------------------- the operators

  /** A group's children are its `sub_conditions`, each dispatched; a list's are its items, each a leaf. */
  lemma ChildrenOf(leaf: LeafEval, ctx: Ctx, c: Condition)
    ensures c.Group? ==> forall k :: 0 <= k < |c.subs| ==> ChildOutcome(leaf, ctx, c, k) == Dispatch(leaf, ctx, c.subs[k])
    ensures c.Items? ==> forall k :: 0 <= k < |c.elems| ==> ChildOutcome(leaf, ctx, c, k) == leaf(ctx, c.elems[k])
  {
  }

  /** A bare list holds iff every item, evaluated as a leaf, holds. */
  lemma ListIsConjunction(leaf: LeafEval, ctx: Ctx, elems: seq<Condition>)
    ensures EvalTree(leaf, ctx, Items(elems)) == Value(true) <==>
            forall k :: 0 <= k < |elems| ==> leaf(ctx, elems[k]) == Value(true)
  {
    ChildrenOf(leaf, ctx, Items(elems));
    AllOfTrue(leaf, ctx, Items(elems), 0);
  }

  /** AND holds iff every child holds, each child dispatched as a leaf iff it has a metric. */
  lemma AndIsAll(leaf: LeafEval, ctx: Ctx, subs: seq<Condition>)
    ensures EvalTree(leaf, ctx, Group("AND", subs)) == Value(true) <==>
            forall k :: 0 <= k < |subs| ==> Dispatch(leaf, ctx, subs[k]) == Value(true)
  {
    ChildrenOf(leaf, ctx, Group("AND", subs));
    AllOfTrue(leaf, ctx, Group("AND", subs), 0);
  }

  /** When no child raises, AND is the conjunction of the children. */
  lemma AndWithoutFaults(leaf: LeafEval, ctx: Ctx, subs: seq<Condition>)
    requires forall k :: 0 <= k < |subs| ==> Dispatch(leaf, ctx, subs[k]).Value?
    ensures EvalTree(leaf, ctx, Group("AND", subs)) ==
            Value(forall k :: 0 <= k < |subs| ==> Dispatch(leaf, ctx, subs[k]) == Value(true))
  {
    ChildrenOf(leaf, ctx, Group("AND", subs));
    AllOfNoFault(leaf, ctx, Group("AND", subs), 0);
  }

  /** AND is `all(...)`: it returns what its first non-true child returns, and no later child is looked at. */
  lemma AndStopsAtFirstNonTrue(leaf: LeafEval, ctx: Ctx, subs: seq<Condition>, j: nat)
    requires j < |subs|
    requires forall k :: 0 <= k < j ==> Dispatch(leaf, ctx, subs[k]) == Value(true)
    requires Dispatch(leaf, ctx, subs[j]) != Value(true)
    ensures EvalTree(leaf, ctx, Group("AND", subs)) == Dispatch(leaf, ctx, subs[j])
  {
    AllOfStopsAt(leaf, ctx, Group("AND", subs), 0, j);
  }

  /** OR is false iff every child is false. */
  lemma OrIsAny(leaf: LeafEval, ctx: Ctx, subs: seq<Condition>)
    ensures EvalTree(leaf, ctx, Group("OR", subs)) == Value(false) <==>
            forall k :: 0 <= k < |subs| ==> Dispatch(leaf, ctx, subs[k]) == Value(false)
  {
    ChildrenOf(leaf, ctx, Group("OR", subs));
    AnyOfFalse(leaf, ctx, Group("OR", subs), 0);
  }

  /** When no child raises, OR is the disjunction of the children. */
  lemma OrWithoutFaults(leaf: LeafEval, ctx: Ctx, subs: seq<Condition>)
    requires forall k :: 0 <= k < |subs| ==> Dispatch(leaf, ctx, subs[k]).Value?
    ensures EvalTree(leaf, ctx, Group("OR", subs)) ==
            Value(exists k :: 0 <= k < |subs| && Dispatch(leaf, ctx, subs[k]) == Value(true))
  {
    ChildrenOf(leaf, ctx, Group("OR", subs));
    AnyOfNoFault(leaf, ctx, Group("OR", subs), 0);
  }

  /** OR is `any(...)`: it returns what its first non-false child returns. */
  lemma OrStopsAtFirstNonFalse(leaf: LeafEval, ctx: Ctx, subs: seq<Condition>, j: nat)
    requires j < |subs|
    requires forall k :: 0 <= k < j ==> Dispatch(leaf, ctx, subs[k]) == Value(false)
    requires Dispatch(leaf, ctx, subs[j]) != Value(false)
    ensures EvalTree(leaf, ctx, Group("OR", subs)) == Dispatch(leaf, ctx, subs[j])
  {
    AnyOfStopsAt(leaf, ctx, Group("OR", subs), 0, j);
  }

  /** The degenerate groups: empty list and empty AND hold, empty OR fails, empty NOT raises, empty SEQUENCE holds. */
  lemma EmptyGroups(leaf: LeafEval, ctx: Ctx)
    ensures EvalTree(leaf, ctx, Items([])) == Value(true)
    ensures EvalTree(leaf, ctx, Group("AND", [])) == Value(true)
    ensures EvalTree(leaf, ctx, Group("OR", [])) == Value(false)
    ensures EvalTree(leaf, ctx, Group("NOT", [])) == Raised(IndexError)
    ensures EvalTree(leaf, ctx, Group("SEQUENCE", [])) == Value(true)
  {
  }

  /** Any other operator is false; a leaf at tree level dispatches on its comparison operator. */
  lemma UnknownOperatorIsFalse(leaf: LeafEval, ctx: Ctx, c: Condition)
    requires !c.Items?
    requires GroupOperator(c) !in {"AND", "OR", "NOT", "SEQUENCE"}
    ensures EvalTree(leaf, ctx, c) == Value(false)
  {
  }

  /** NOT negates its first child evaluated as a tree; any further children are ignored. */
  lemma NotNegatesFirst(leaf: LeafEval, ctx: Ctx, subs: seq<Condition>)
    requires subs != []
    ensures EvalTree(leaf, ctx, Group("NOT", subs)) == Negate(EvalTree(leaf, ctx, subs[0]))
  {
  }

  /** A comparison leaf under NOT is read as a group with an unknown operator, so NOT holds whatever the data. */
  lemma NotOfLeafHolds(leaf: LeafEval, ctx: Ctx, c: Condition, rest: seq<Condition>)
    requires c.Leaf? && c.op !in {"AND", "OR", "NOT", "SEQUENCE"}
    ensures EvalTree(leaf, ctx, Group("NOT", [c] + rest)) == Value(true)
  {
  }
}

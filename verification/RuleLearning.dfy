/** What filling in missing information does to a satisfied rule (packages/core/src/rules/engine.ts). */
module RuleLearning {
  import opened Prelude
  import opened Rules

  /** An unknown or infinite number; using one in arithmetic or a comparison is an error. */
  predicate Usable(v: FactValue) { v.Number? ==> v.n.Fin? }

  /** Nothing known changes; something unknown may become known. */
  ghost predicate Learns(before: Facts, after: Facts) {
    forall name ::
      Lookup(before, name) == Lookup(after, name) || (Lookup(before, name) == Null && Usable(Lookup(after, name)))
  }

  ghost predicate AllUsable(facts: Facts) { forall name :: Usable(Lookup(facts, name)) }

  predicate Satisfied(v: Answer) { v.Ok? && Truthy(v.value) }

  // ---------------------------------------------------------------------------
  // The part of the language in which information can only help
  // ---------------------------------------------------------------------------

  predicate Operand(e: Expr) { e.Const? || e.Fact? }

  predicate KnownConst(e: Expr) { e.Const? && e.value != Null }

  predicate Monotone(e: Expr)
    decreases e, 1
  {
    match e
    case Const(_) => true
    case Fact(_) => true
    case And(es) => AllMonotone(es)
    case Or(es) => AllMonotone(es)
    case Eq(a, b) => (Operand(a) && KnownConst(b)) || (KnownConst(a) && Operand(b))
    case Compare(_, a, b) => Operand(a) && Operand(b)
    case Between(a, lo, hi) => Operand(a) && Operand(lo) && Operand(hi)
    case In(a, es) => Operand(a) && forall i :: 0 <= i < |es| ==> KnownConst(es[i])
    case Includes(a, b) => Operand(a) && Operand(b)
    case Not(a) => a.IsNull? && Operand(a.subject)
    case _ => false
  }

  predicate AllMonotone(es: seq<Expr>)
    decreases es, 0
  {
    |es| == 0 || (Monotone(es[0]) && AllMonotone(es[1..]))
  }

  /** Levels of nesting below the expression itself. */
  function Depth(e: Expr): nat
    decreases e, 1
  {
    match e
    case And(es) => 1 + DeepestOf(es)
    case Or(es) => 1 + DeepestOf(es)
    case Not(a) => 1 + Depth(a)
    case IsNull(a) => 1 + Depth(a)
    case Eq(a, b) => 1 + Max(Depth(a), Depth(b))
    case Neq(a, b) => 1 + Max(Depth(a), Depth(b))
    case Compare(_, a, b) => 1 + Max(Depth(a), Depth(b))
    case Includes(a, b) => 1 + Max(Depth(a), Depth(b))
    case Subtract(a, b) => 1 + Max(Depth(a), Depth(b))
    case Between(a, b, c) => 1 + Max(Depth(a), Max(Depth(b), Depth(c)))
    case In(a, es) => 1 + Max(Depth(a), DeepestOf(es))
    case Add(es) => 1 + DeepestOf(es)
    case Multiply(es) => 1 + DeepestOf(es)
    case _ => 0
  }

  function DeepestOf(es: seq<Expr>): nat
    decreases es, 0
  {
    if |es| == 0 then 0 else Max(Depth(es[0]), DeepestOf(es[1..]))
  }

  predicate UsableConsts(e: Expr)
    decreases e, 1
  {
    match e
    case Const(v) => Usable(v)
    case And(es) => AllUsableConsts(es)
    case Or(es) => AllUsableConsts(es)
    case Compare(_, a, b) => UsableConsts(a) && UsableConsts(b)
    case Between(a, lo, hi) => UsableConsts(a) && UsableConsts(lo) && UsableConsts(hi)
    case _ => true
  }

  predicate AllUsableConsts(es: seq<Expr>)
    decreases es, 0
  {
    |es| == 0 || (UsableConsts(es[0]) && AllUsableConsts(es[1..]))
  }

  // ---------------------------------------------------------------------------
  // One rule
  // ---------------------------------------------------------------------------

  /** An operand keeps its value unless the value was unknown. */
  lemma OperandLearns(e: Expr, before: Facts, after: Facts, read: Reader, depth: nat)
    requires Operand(e) && Learns(before, after)
    ensures Eval(e, before, read, depth).Ok? == Eval(e, after, read, depth).Ok? == (depth <= MAX_DEPTH)
    ensures depth <= MAX_DEPTH ==>
      var v, w := Eval(e, before, read, depth).value, Eval(e, after, read, depth).value;
      v == w || (v == Null && Usable(w))
  {}

  /** A satisfied rule stays satisfied when more becomes known, unless evaluating it now fails. */
  lemma {:induction false} LearningKeeps(e: Expr, before: Facts, after: Facts, read: Reader, depth: nat)
    requires Monotone(e) && Learns(before, after)
    requires Satisfied(Eval(e, before, read, depth))
    ensures Satisfied(Eval(e, after, read, depth)) <==> Eval(e, after, read, depth).Ok?
    decreases e, 1
  {
    match e
    case Const(_) =>
    case Fact(_) =>
    case And(es) => LearningKeepsEvery(es, before, after, read, depth + 1);
    case Or(es) => LearningKeepsSome(es, before, after, read, depth + 1);
    case Eq(_, _) => LearningKeepsPair(e, before, after, read, depth);
    case Compare(_, _, _) => LearningKeepsPair(e, before, after, read, depth);
    case Includes(_, _) => LearningKeepsPair(e, before, after, read, depth);
    case Between(a, lo, hi) =>
      OperandLearns(a, before, after, read, depth + 1);
      OperandLearns(lo, before, after, read, depth + 1);
      OperandLearns(hi, before, after, read, depth + 1);
    case In(a, es) =>
      OperandLearns(a, before, after, read, depth + 1);
      KnownOptions(Eval(a, before, read, depth + 1).value, es, before, after, read, depth + 1);
    case Not(a) =>
      OperandLearns(a.subject, before, after, read, depth + 2);
      NotNull(e, before, read, depth);
      NotNull(e, after, read, depth);
  }

  lemma LearningKeepsPair(e: Expr, before: Facts, after: Facts, read: Reader, depth: nat)
    requires (e.Eq? || e.Compare? || e.Includes?) && Monotone(e) && Learns(before, after)
    requires Satisfied(Eval(e, before, read, depth))
    ensures Eval(e, after, read, depth).Ok? ==> Satisfied(Eval(e, after, read, depth))
  {
    OperandLearns(e.left, before, after, read, depth + 1);
    OperandLearns(e.right, before, after, read, depth + 1);
  }

  lemma NotNull(e: Expr, facts: Facts, read: Reader, depth: nat)
    requires e.Not? && e.negated.IsNull?
    ensures Eval(e, facts, read, depth) ==
            if depth >= MAX_DEPTH then Err(TooDeep)
            else NotAnswer(NullAnswer(Eval(e.negated.subject, facts, read, depth + 2)))
  {
  }

  /** Constant options do not depend on the facts, and none of them is unknown. */
  lemma {:induction false} KnownOptions(
    v: FactValue, es: seq<Expr>, before: Facts, after: Facts, read: Reader, depth: nat)
    requires forall i :: 0 <= i < |es| ==> KnownConst(es[i])
    ensures EvalIn(v, es, before, read, depth) == EvalIn(v, es, after, read, depth)
    ensures v == Null ==> !Satisfied(EvalIn(v, es, before, read, depth))
  {
    if |es| > 0 { KnownOptions(v, es[1..], before, after, read, depth); }
  }

  lemma {:induction false} LearningKeepsEvery(es: seq<Expr>, before: Facts, after: Facts, read: Reader, depth: nat)
    requires AllMonotone(es) && Learns(before, after)
    requires Satisfied(EvalEvery(es, before, read, depth))
    ensures EvalEvery(es, after, read, depth).Ok? ==> Satisfied(EvalEvery(es, after, read, depth))
    decreases es, 0
  {
    if |es| > 0 {
      LearningKeeps(es[0], before, after, read, depth);
      LearningKeepsEvery(es[1..], before, after, read, depth);
    }
  }

  lemma {:induction false} LearningKeepsSome(es: seq<Expr>, before: Facts, after: Facts, read: Reader, depth: nat)
    requires AllMonotone(es) && Learns(before, after)
    requires Satisfied(EvalSome(es, before, read, depth))
    ensures EvalSome(es, after, read, depth).Ok? ==> Satisfied(EvalSome(es, after, read, depth))
    decreases es, 0
  {
    if Satisfied(Eval(es[0], before, read, depth)) {
      LearningKeeps(es[0], before, after, read, depth);
    } else {
      LearningKeepsSome(es[1..], before, after, read, depth);
    }
  }

  /** Usable numbers and no more than the permitted nesting: evaluation does not fail. */
  lemma {:induction false} ShallowRuleEvaluates(e: Expr, facts: Facts, read: Reader, depth: nat)
    requires Monotone(e) && UsableConsts(e) && AllUsable(facts) && depth + Depth(e) <= MAX_DEPTH
    ensures Eval(e, facts, read, depth).Ok?
    decreases e, 1
  {
    match e
    case And(es) => ShallowRulesEvaluate(es, facts, read, depth + 1);
    case Or(es) => ShallowRulesEvaluate(es, facts, read, depth + 1);
    case In(_, es) => KnownOptionsEvaluate(Eval(e.subject, facts, read, depth + 1).value, es, facts, read, depth + 1);
    case Not(a) =>
      NotNull(e, facts, read, depth);
      assert Depth(a.subject) == 0 && Depth(a) == 1 + Depth(a.subject);
    case _ =>
  }

  lemma {:induction false} ShallowRulesEvaluate(es: seq<Expr>, facts: Facts, read: Reader, depth: nat)
    requires AllMonotone(es) && AllUsableConsts(es) && AllUsable(facts) && depth + DeepestOf(es) <= MAX_DEPTH
    ensures EvalEvery(es, facts, read, depth).Ok? && EvalSome(es, facts, read, depth).Ok?
    decreases es, 0
  {
    if |es| > 0 {
      ShallowRuleEvaluates(es[0], facts, read, depth);
      ShallowRulesEvaluate(es[1..], facts, read, depth);
    }
  }

  lemma {:induction false} KnownOptionsEvaluate(v: FactValue, es: seq<Expr>, facts: Facts, read: Reader, depth: nat)
    requires depth + DeepestOf(es) <= MAX_DEPTH
    requires forall i :: 0 <= i < |es| ==> KnownConst(es[i])
    ensures EvalIn(v, es, facts, read, depth).Ok?
  {
    if |es| > 0 { KnownOptionsEvaluate(v, es[1..], facts, read, depth); }
  }

  predicate Safe(e: Expr) { Monotone(e) && UsableConsts(e) && Depth(e) <= MAX_DEPTH }

  /** Within the nesting limit, learning more never revokes a satisfied rule. */
  lemma LearningNeverRevokes(e: Expr, before: Facts, after: Facts, read: Reader)
    requires Safe(e) && AllUsable(before) && Learns(before, after)
    requires Satisfied(Eval(e, before, read, 0))
    ensures Satisfied(Eval(e, after, read, 0))
  {
    ShallowRuleEvaluates(e, after, read, 0);
    LearningKeeps(e, before, after, read, 0);
  }

  // ---------------------------------------------------------------------------
  // Exactly when the nesting limit is met
  // ---------------------------------------------------------------------------

  predicate Junction(e: Expr) { e.And? || e.Or? }

  /** Whether the rule holds, were there no limit on nesting. */
  predicate Truth(e: Expr, facts: Facts, read: Reader)
    decreases e, 1
  {
    match e
    case And(es) => TruthOfAll(es, facts, read)
    case Or(es) => TruthOfSome(es, facts, read)
    case _ => Satisfied(Eval(e, facts, read, 0))
  }

  predicate TruthOfAll(es: seq<Expr>, facts: Facts, read: Reader)
    decreases es, 0
  {
    |es| == 0 || (Truth(es[0], facts, read) && TruthOfAll(es[1..], facts, read))
  }

  predicate TruthOfSome(es: seq<Expr>, facts: Facts, read: Reader)
    decreases es, 0
  {
    |es| > 0 && (Truth(es[0], facts, read) || TruthOfSome(es[1..], facts, read))
  }

  /** Levels below a rule that is no junction. */
  function Levels(e: Expr): nat { if Operand(e) then 0 else if e.Not? then 2 else 1 }

  /**
   * How deep evaluation looks below the rule: a requirement after one that does
   * not hold is not looked at, nor an alternative after one that does.
   */
  function Reach(e: Expr, facts: Facts, read: Reader): nat
    decreases e, 1
  {
    match e
    case And(es) => if |es| == 0 then 0 else 1 + ReachOfAll(es, facts, read)
    case Or(es) => if |es| == 0 then 0 else 1 + ReachOfSome(es, facts, read)
    case _ => Levels(e)
  }

  function ReachOfAll(es: seq<Expr>, facts: Facts, read: Reader): nat
    decreases es, 0
  {
    if |es| == 0 then 0
    else if !Truth(es[0], facts, read) then Reach(es[0], facts, read)
    else Max(Reach(es[0], facts, read), ReachOfAll(es[1..], facts, read))
  }

  function ReachOfSome(es: seq<Expr>, facts: Facts, read: Reader): nat
    decreases es, 0
  {
    if |es| == 0 then 0
    else if Truth(es[0], facts, read) then Reach(es[0], facts, read)
    else Max(Reach(es[0], facts, read), ReachOfSome(es[1..], facts, read))
  }

  lemma {:induction false} OptionsAnywhere(v: FactValue, es: seq<Expr>, facts: Facts, read: Reader, depth: nat)
    requires depth <= MAX_DEPTH && forall i :: 0 <= i < |es| ==> KnownConst(es[i])
    ensures EvalIn(v, es, facts, read, depth) == EvalIn(v, es, facts, read, 1)
  {
    if |es| > 0 { OptionsAnywhere(v, es[1..], facts, read, depth); }
  }

  /** What is no junction gives the same answer at every permitted depth. */
  lemma SimpleReaches(e: Expr, facts: Facts, read: Reader, depth: nat)
    requires Monotone(e) && !Junction(e)
    ensures depth + Levels(e) <= MAX_DEPTH ==> Eval(e, facts, read, depth) == Eval(e, facts, read, 0)
    ensures depth + Levels(e) > MAX_DEPTH ==> Eval(e, facts, read, depth).Err?
  {
    match e
    case In(a, es) =>
      if depth + 1 <= MAX_DEPTH { OptionsAnywhere(Eval(a, facts, read, depth + 1).value, es, facts, read, depth + 1); }
    case Not(a) =>
      NotNull(e, facts, read, depth);
      NotNull(e, facts, read, 0);
    case _ =>
  }

  lemma {:induction false} ReachMeaning(e: Expr, facts: Facts, read: Reader, depth: nat)
    requires Monotone(e) && UsableConsts(e) && AllUsable(facts)
    ensures Eval(e, facts, read, depth).Ok? <==> depth + Reach(e, facts, read) <= MAX_DEPTH
    ensures Eval(e, facts, read, depth).Ok? ==> Truthy(Eval(e, facts, read, depth).value) == Truth(e, facts, read)
    decreases e, 1
  {
    match e
    case And(es) => ReachOfAllMeaning(es, facts, read, depth + 1);
    case Or(es) => ReachOfSomeMeaning(es, facts, read, depth + 1);
    case _ =>
      SimpleReaches(e, facts, read, depth);
      SimpleEvaluates(e, facts, read);
  }

  lemma SimpleEvaluates(e: Expr, facts: Facts, read: Reader)
    requires Monotone(e) && !Junction(e) && UsableConsts(e) && AllUsable(facts)
    ensures Eval(e, facts, read, 0).Ok?
  {
    if e.In? { SimpleOptions(e.options); }
    if e.Not? { assert Depth(e.negated.subject) == 0 && Depth(e.negated) == 1; }
    ShallowRuleEvaluates(e, facts, read, 0);
  }

  lemma {:induction false} SimpleOptions(es: seq<Expr>)
    requires forall i :: 0 <= i < |es| ==> KnownConst(es[i])
    ensures DeepestOf(es) == 0
  {
    if |es| > 0 { SimpleOptions(es[1..]); }
  }

  lemma {:induction false} ReachOfAllMeaning(es: seq<Expr>, facts: Facts, read: Reader, depth: nat)
    requires AllMonotone(es) && AllUsableConsts(es) && AllUsable(facts)
    ensures var v := EvalEvery(es, facts, read, depth);
      && (v.Ok? <==> |es| == 0 || depth + ReachOfAll(es, facts, read) <= MAX_DEPTH)
      && (v.Ok? ==> Truthy(v.value) == TruthOfAll(es, facts, read))
    decreases es, 0
  {
    if |es| > 0 {
      ReachMeaning(es[0], facts, read, depth);
      ReachOfAllMeaning(es[1..], facts, read, depth);
    }
  }

  lemma {:induction false} ReachOfSomeMeaning(es: seq<Expr>, facts: Facts, read: Reader, depth: nat)
    requires AllMonotone(es) && AllUsableConsts(es) && AllUsable(facts)
    ensures var v := EvalSome(es, facts, read, depth);
      && (v.Ok? <==> |es| == 0 || depth + ReachOfSome(es, facts, read) <= MAX_DEPTH)
      && (v.Ok? ==> Truthy(v.value) == TruthOfSome(es, facts, read))
    decreases es, 0
  {
    if |es| > 0 {
      ReachMeaning(es[0], facts, read, depth);
      ReachOfSomeMeaning(es[1..], facts, read, depth);
    }
  }

  /** Learning revokes a satisfied rule exactly when what it opens up lies below the nesting limit. */
  lemma KeptIff(e: Expr, before: Facts, after: Facts, read: Reader)
    requires Monotone(e) && UsableConsts(e) && AllUsable(before) && Learns(before, after)
    requires Satisfied(Eval(e, before, read, 0))
    ensures Satisfied(Eval(e, after, read, 0)) <==> Reach(e, after, read) <= MAX_DEPTH
  {
    LearningKeeps(e, before, after, read, 0);
    ReachMeaning(e, after, read, 0);
  }

  // ---------------------------------------------------------------------------
  // Past the nesting limit it can revoke
  // ---------------------------------------------------------------------------

  function Nested(n: nat): Expr { if n == 0 then Const(Boolean(true)) else And([Nested(n - 1)]) }

  lemma {:induction false} NestedShape(n: nat)
    ensures Monotone(Nested(n)) && UsableConsts(Nested(n)) && Depth(Nested(n)) == n
  {
    if n > 0 {
      NestedShape(n - 1);
      var es := [Nested(n - 1)];
      assert es[1..] == [];
      assert AllMonotone(es[1..]) && AllUsableConsts(es[1..]) && DeepestOf(es[1..]) == 0;
      assert AllMonotone(es) && AllUsableConsts(es) && DeepestOf(es) == n - 1;
    }
  }

  lemma {:induction false} NestedEvaluates(n: nat, facts: Facts, read: Reader, depth: nat)
    ensures Eval(Nested(n), facts, read, depth) == if depth + n <= MAX_DEPTH then Ok(Boolean(true)) else Err(TooDeep)
  {
    if n > 0 && depth <= MAX_DEPTH {
      NestedEvaluates(n - 1, facts, read, depth + 1);
      var es := [Nested(n - 1)];
      assert es[1..] == [];
      assert EvalEvery(es, facts, read, depth + 1) ==
             if depth + n <= MAX_DEPTH then Ok(Boolean(true)) else Err(TooDeep);
    }
  }

  /** A second requirement is looked at once the first holds, and a second alternative once the first does not. */
  lemma LooksFurther(a: Expr, b: Expr, facts: Facts, read: Reader, depth: nat)
    requires Eval(a, facts, read, depth).Ok?
    ensures Satisfied(Eval(a, facts, read, depth)) && Eval(b, facts, read, depth).Err? ==>
      EvalEvery([a, b], facts, read, depth).Err?
    ensures !Satisfied(Eval(a, facts, read, depth)) ==> EvalEvery([a, b], facts, read, depth) == Ok(Boolean(false))
    ensures !Satisfied(Eval(a, facts, read, depth)) && Satisfied(Eval(b, facts, read, depth)) ==>
      EvalSome([a, b], facts, read, depth) == Ok(Boolean(true))
  {
    assert [a, b][1..] == [b];
  }

  function DeepBranch(name: string, deep: Expr): Expr { Or([And([Fact(name), deep]), Const(Boolean(true))]) }

  lemma DeepBranchShape(name: string, deep: Expr)
    requires Monotone(deep) && UsableConsts(deep)
    ensures Monotone(DeepBranch(name, deep)) && UsableConsts(DeepBranch(name, deep))
  {
    var inner := [Fact(name), deep];
    var yes := Const(Boolean(true));
    assert inner[1..] == [deep] && [deep][1..] == [];
    assert AllMonotone([deep]) && AllUsableConsts([deep]);
    assert AllMonotone(inner) && AllUsableConsts(inner);
    assert Monotone(And(inner)) && UsableConsts(And(inner));
    var outer := [And(inner), yes];
    assert outer[1..] == [yes] && [yes][1..] == [];
    assert AllMonotone([yes]) && AllUsableConsts([yes]);
    assert AllMonotone(outer) && AllUsableConsts(outer);
  }

  /** A branch nobody has looked into yet is too deep; learning the fact in front of it looks into it. */
  lemma DeepBranchRevoked(name: string, deep: Expr, before: Facts, after: Facts, read: Reader, depth: nat)
    requires depth + 2 <= MAX_DEPTH && Eval(deep, after, read, depth + 2).Err?
    requires Lookup(before, name) == Null && Lookup(after, name) == Boolean(true)
    ensures Satisfied(Eval(DeepBranch(name, deep), before, read, depth))
    ensures Eval(DeepBranch(name, deep), after, read, depth).Err?
  {
    var inner, yes := And([Fact(name), deep]), Const(Boolean(true));
    LooksFurther(Fact(name), deep, before, read, depth + 2);
    assert Eval(inner, before, read, depth + 1) == EvalEvery([Fact(name), deep], before, read, depth + 2);
    LooksFurther(inner, yes, before, read, depth + 1);
    LooksFurther(Fact(name), deep, after, read, depth + 2);
    assert Eval(inner, after, read, depth + 1) == EvalEvery([Fact(name), deep], after, read, depth + 2);
    assert EvalSome([inner, yes], after, read, depth + 1).Err?;
  }

  lemma LearningCanRevokeDeepRule(read: Reader, name: string)
    ensures exists e, before, after ::
      Monotone(e) && UsableConsts(e) && AllUsable(before) && Learns(before, after) &&
      Satisfied(Eval(e, before, read, 0)) && !Satisfied(Eval(e, after, read, 0))
  {
    var before: Facts, after: Facts := map[], map[name := Boolean(true)];
    var n: nat := MAX_DEPTH - 1;
    var deep := Nested(n);
    NestedShape(n);
    NestedEvaluates(n, after, read, 2);
    DeepBranchShape(name, deep);
    DeepBranchRevoked(name, deep, before, after, read, 0);
    var e := DeepBranch(name, deep);
    assert Monotone(e) && UsableConsts(e) && AllUsable(before) && Learns(before, after);
    assert Satisfied(Eval(e, before, read, 0)) && !Satisfied(Eval(e, after, read, 0));
  }
}

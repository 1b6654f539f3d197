/** What the operators of the rule language mean, apart from how they are evaluated (packages/core/src/rules/engine.ts). */
module RuleMeaning {
  import opened Prelude
  import opened Rules
  import opened RuleLearning

  predicate Met(e: Expr, facts: Facts, read: Reader, depth: nat) { Satisfied(Eval(e, facts, read, depth)) }

  predicate NotMet(e: Expr, facts: Facts, read: Reader, depth: nat) {
    Eval(e, facts, read, depth).Ok? && !Met(e, facts, read, depth)
  }

  /** The i-th requirement decides: those before it are met, it is not. */
  predicate Decides(es: seq<Expr>, i: nat, facts: Facts, read: Reader, depth: nat) {
    i < |es| && !Met(es[i], facts, read, depth) && forall j :: 0 <= j < i ==> Met(es[j], facts, read, depth)
  }

  /** What deciding by the i-th requirement answers: its error, or false. */
  predicate DecidesAs(es: seq<Expr>, i: nat, facts: Facts, read: Reader, depth: nat, answer: Answer) {
    Decides(es, i, facts, read, depth)
    && answer == if Eval(es[i], facts, read, depth).Err? then Eval(es[i], facts, read, depth) else Ok(Boolean(false))
  }

  /** Every requirement is met, or the first one that is not decides. */
  lemma {:induction false} EveryMeaning(es: seq<Expr>, facts: Facts, read: Reader, depth: nat)
    ensures EvalEvery(es, facts, read, depth) == Ok(Boolean(true)) <==>
            forall i :: 0 <= i < |es| ==> Met(es[i], facts, read, depth)
    ensures EvalEvery(es, facts, read, depth) != Ok(Boolean(true)) ==>
      exists i: nat :: DecidesAs(es, i, facts, read, depth, EvalEvery(es, facts, read, depth))
  {
    if |es| > 0 {
      var rest, answer := es[1..], EvalEvery(es, facts, read, depth);
      assert forall j :: 0 <= j < |rest| ==> rest[j] == es[j + 1];
      if !Met(es[0], facts, read, depth) {
        assert DecidesAs(es, 0, facts, read, depth, answer);
      } else {
        EveryMeaning(rest, facts, read, depth);
        if answer != Ok(Boolean(true)) {
          var i: nat :| DecidesAs(rest, i, facts, read, depth, answer);
          forall j | 0 <= j < i + 1 ensures Met(es[j], facts, read, depth) {
            if j > 0 { assert rest[j - 1] == es[j]; }
          }
          assert DecidesAs(es, i + 1, facts, read, depth, answer);
        } else {
          forall i | 0 <= i < |es| ensures Met(es[i], facts, read, depth) {
            if i > 0 { assert rest[i - 1] == es[i]; }
          }
        }
      }
    }
  }

  /** The i-th alternative is met, and those before it could be evaluated. */
  predicate MetAt(es: seq<Expr>, i: nat, facts: Facts, read: Reader, depth: nat) {
    i < |es| && Met(es[i], facts, read, depth) && forall j :: 0 <= j < i ==> Eval(es[j], facts, read, depth).Ok?
  }

  predicate SomeMet(es: seq<Expr>, facts: Facts, read: Reader, depth: nat) {
    exists i: nat :: i < |es| && MetAt(es, i, facts, read, depth)
  }

  lemma SomeMetStep(es: seq<Expr>, facts: Facts, read: Reader, depth: nat)
    requires |es| > 0
    ensures SomeMet(es, facts, read, depth) <==>
      Met(es[0], facts, read, depth) || (Eval(es[0], facts, read, depth).Ok? && SomeMet(es[1..], facts, read, depth))
  {
    var rest := es[1..];
    assert forall j :: 0 <= j < |rest| ==> rest[j] == es[j + 1];
    if Met(es[0], facts, read, depth) { assert MetAt(es, 0, facts, read, depth); }
    if Eval(es[0], facts, read, depth).Ok? && SomeMet(rest, facts, read, depth) {
      var i: nat :| i < |rest| && MetAt(rest, i, facts, read, depth);
      forall j | 0 <= j < i + 1 ensures Eval(es[j], facts, read, depth).Ok? {
        if j > 0 { assert rest[j - 1] == es[j]; }
      }
      assert MetAt(es, i + 1, facts, read, depth);
    }
    if SomeMet(es, facts, read, depth) && !Met(es[0], facts, read, depth) {
      var i: nat :| i < |es| && MetAt(es, i, facts, read, depth);
      assert MetAt(rest, i - 1, facts, read, depth);
    }
  }

  /** Some alternative is met before any of them fails to evaluate, or all of them are not met. */
  lemma {:induction false} SomeMeaning(es: seq<Expr>, facts: Facts, read: Reader, depth: nat)
    ensures EvalSome(es, facts, read, depth) == Ok(Boolean(true)) <==> SomeMet(es, facts, read, depth)
    ensures EvalSome(es, facts, read, depth) == Ok(Boolean(false)) <==>
      forall i :: 0 <= i < |es| ==> NotMet(es[i], facts, read, depth)
  {
    if |es| > 0 {
      var rest := es[1..];
      SomeMeaning(rest, facts, read, depth);
      SomeMetStep(es, facts, read, depth);
      assert forall j :: 0 <= j < |rest| ==> rest[j] == es[j + 1];
      if forall i :: 0 <= i < |rest| ==> NotMet(rest[i], facts, read, depth) {
        forall i | 1 <= i < |es| ensures NotMet(es[i], facts, read, depth) {
          assert rest[i - 1] == es[i];
        }
      }
    }
  }

  /** `and` is met exactly when all its parts are. */
  lemma AndMeaning(e: Expr, facts: Facts, read: Reader, depth: nat)
    requires e.And? && depth <= MAX_DEPTH
    ensures Met(e, facts, read, depth) <==> forall i :: 0 <= i < |e.all| ==> Met(e.all[i], facts, read, depth + 1)
  {
    EveryMeaning(e.all, facts, read, depth + 1);
    EveryBoolean(e.all, facts, read, depth + 1);
  }

  /** `or` is met exactly when one part is and none before it fails to evaluate. */
  lemma OrMeaning(e: Expr, facts: Facts, read: Reader, depth: nat)
    requires e.Or? && depth <= MAX_DEPTH
    ensures Met(e, facts, read, depth) <==> SomeMet(e.any, facts, read, depth + 1)
  {
    SomeMeaning(e.any, facts, read, depth + 1);
    SomeBoolean(e.any, facts, read, depth + 1);
  }

  lemma {:induction false} EveryBoolean(es: seq<Expr>, facts: Facts, read: Reader, depth: nat)
    ensures Satisfied(EvalEvery(es, facts, read, depth)) ==> EvalEvery(es, facts, read, depth) == Ok(Boolean(true))
  {
    if |es| > 0 { EveryBoolean(es[1..], facts, read, depth); }
  }

  lemma {:induction false} SomeBoolean(es: seq<Expr>, facts: Facts, read: Reader, depth: nat)
    ensures Satisfied(EvalSome(es, facts, read, depth)) ==> EvalSome(es, facts, read, depth) == Ok(Boolean(true))
  {
    if |es| > 0 { SomeBoolean(es[1..], facts, read, depth); }
  }

  function RealSum(xs: seq<real>): real { if |xs| == 0 then 0.0 else xs[0] + RealSum(xs[1..]) }

  function RealProduct(xs: seq<real>): real { if |xs| == 0 then 1.0 else xs[0] * RealProduct(xs[1..]) }

  /** The term is known, or unknown and taken for nought. */
  predicate Term(e: Expr, facts: Facts, read: Reader, depth: nat, x: real) {
    var v := NumericOf(Eval(e, facts, read, depth), read);
    v.Ok? && OrZero(v.value) == Fin(x)
  }

  predicate Terms(es: seq<Expr>, facts: Facts, read: Reader, depth: nat, xs: seq<real>) {
    |xs| == |es| && forall i :: 0 <= i < |es| ==> Term(es[i], facts, read, depth, xs[i])
  }

  /** A sum is that of the numbers, an unknown one counting as nought. */
  lemma {:induction false} AddMeaning(es: seq<Expr>, acc: real, facts: Facts, read: Reader, depth: nat, xs: seq<real>)
    requires Terms(es, facts, read, depth, xs)
    ensures EvalAdd(es, Fin(acc), facts, read, depth) == Ok(Number(Fin(acc + RealSum(xs))))
  {
    if |es| > 0 {
      assert Term(es[0], facts, read, depth, xs[0]) && Terms(es[1..], facts, read, depth, xs[1..]);
      AddMeaning(es[1..], acc + xs[0], facts, read, depth, xs[1..]);
    }
  }

  function Running(acc: real, xs: seq<real>): real
    decreases |xs|
  {
    if |xs| == 0 then acc else Running(acc * xs[0], xs[1..])
  }

  lemma {:induction false} RunningProduct(acc: real, xs: seq<real>)
    ensures Running(acc, xs) == acc * RealProduct(xs)
    decreases |xs|
  {
    if |xs| > 0 {
      RunningProduct(acc * xs[0], xs[1..]);
    }
  }

  lemma TimesFinite(a: real, b: real, c: real)
    requires c == a * b
    ensures Times(Fin(a), Fin(b)) == Fin(c)
  {}

  lemma {:induction false} MultiplyMeaning(
    es: seq<Expr>, acc: real, facts: Facts, read: Reader, depth: nat, xs: seq<real>)
    requires Terms(es, facts, read, depth, xs)
    ensures EvalMultiply(es, Fin(acc), facts, read, depth) == Ok(Number(Fin(Running(acc, xs))))
  {
    if |es| > 0 {
      assert Term(es[0], facts, read, depth, xs[0]) && Terms(es[1..], facts, read, depth, xs[1..]);
      var product := acc * xs[0];
      TimesFinite(acc, xs[0], product);
      MultiplyMeaning(es[1..], product, facts, read, depth, xs[1..]);
    }
  }

  lemma OneTimes(x: real)
    ensures 1.0 * x == x
  {}

  /** A product is that of the numbers, so an unknown factor makes it nought. */
  lemma ProductMeaning(es: seq<Expr>, facts: Facts, read: Reader, depth: nat, xs: seq<real>)
    requires Terms(es, facts, read, depth, xs)
    ensures EvalMultiply(es, Fin(1.0), facts, read, depth) == Ok(Number(Fin(RealProduct(xs))))
  {
    MultiplyMeaning(es, 1.0, facts, read, depth, xs);
    RunningProduct(1.0, xs);
    OneTimes(RealProduct(xs));
    assert Running(1.0, xs) == RealProduct(xs);
  }

  /** The i-th option is the same as the value, and those before it could be evaluated. */
  predicate FoundAt(value: FactValue, es: seq<Expr>, i: nat, facts: Facts, read: Reader, depth: nat) {
    i < |es| && Eval(es[i], facts, read, depth).Ok? && Same(value, Eval(es[i], facts, read, depth).value)
    && forall j :: 0 <= j < i ==> Eval(es[j], facts, read, depth).Ok?
  }

  predicate Found(value: FactValue, es: seq<Expr>, facts: Facts, read: Reader, depth: nat) {
    exists i: nat :: i < |es| && FoundAt(value, es, i, facts, read, depth)
  }

  lemma FoundLater(value: FactValue, es: seq<Expr>, i: nat, facts: Facts, read: Reader, depth: nat)
    requires |es| > 0 && Eval(es[0], facts, read, depth).Ok?
    ensures FoundAt(value, es, i + 1, facts, read, depth) <==> FoundAt(value, es[1..], i, facts, read, depth)
  {
    var rest := es[1..];
    assert forall j :: 0 <= j < |rest| ==> rest[j] == es[j + 1];
    if FoundAt(value, rest, i, facts, read, depth) {
      forall j | 0 <= j < i + 1 ensures Eval(es[j], facts, read, depth).Ok? {
        if j > 0 { assert rest[j - 1] == es[j]; }
      }
    }
  }

  lemma FoundStep(value: FactValue, es: seq<Expr>, facts: Facts, read: Reader, depth: nat)
    requires |es| > 0
    ensures Found(value, es, facts, read, depth) <==>
      Eval(es[0], facts, read, depth).Ok?
      && (Same(value, Eval(es[0], facts, read, depth).value) || Found(value, es[1..], facts, read, depth))
  {
    var rest := es[1..];
    if Eval(es[0], facts, read, depth).Ok? {
      if Same(value, Eval(es[0], facts, read, depth).value) { assert FoundAt(value, es, 0, facts, read, depth); }
      if i: nat :| i < |rest| && FoundAt(value, rest, i, facts, read, depth) {
        FoundLater(value, es, i, facts, read, depth);
      }
    }
    if i: nat :| i < |es| && FoundAt(value, es, i, facts, read, depth) {
      if i > 0 { FoundLater(value, es, i - 1, facts, read, depth); }
    }
  }

  /** A value is among the options if it is the same as one reached before any of them fails to evaluate. */
  lemma {:induction false} InMeaning(value: FactValue, es: seq<Expr>, facts: Facts, read: Reader, depth: nat)
    ensures EvalIn(value, es, facts, read, depth) == Ok(Boolean(true)) <==> Found(value, es, facts, read, depth)
  {
    if |es| > 0 {
      InMeaning(value, es[1..], facts, read, depth);
      FoundStep(value, es, facts, read, depth);
    }
  }
}

/** The declarative rule language (packages/core/src/rules/engine.ts). */
module Rules {
  // Numbers are exact reals together with the infinities and not-a-number. Reading a number out of text is
  // the library's business and is a parameter.

  import opened Prelude

  datatype Num = Fin(x: real) | PosInf | NegInf | NaN

  datatype Item = NumItem(n: Num) | TextItem(s: string)

  datatype FactValue = Number(n: Num) | Text(s: string) | Boolean(b: bool) | Null | List(items: seq<Item>)

  type Facts = map<string, FactValue>

  datatype Expr =
    | Const(value: FactValue)
    | Fact(name: string)
    | And(all: seq<Expr>)
    | Or(any: seq<Expr>)
    | Not(negated: Expr)
    | Eq(left: Expr, right: Expr)
    | Neq(left: Expr, right: Expr)
    | Compare(op: Comparison, left: Expr, right: Expr)
    | Between(subject: Expr, low: Expr, high: Expr)
    | In(subject: Expr, options: seq<Expr>)
    | Includes(left: Expr, right: Expr)
    | IsNull(subject: Expr)
    | Add(terms: seq<Expr>)
    | Subtract(left: Expr, right: Expr)
    | Multiply(factors: seq<Expr>)
    | Unrecognised

  datatype Comparison = Gt | Gte | Lt | Lte

  datatype EvalError = TooDeep | NonFinite | UnknownOperator

  type Answer = Result<FactValue, EvalError>

  /** `Number(text)` where the text is not blank and does not read as not-a-number. */
  type Reader = string -> Option<Num>

  const MAX_DEPTH: nat := 24

  // ---------------------------------------------------------------------------
  // Values
  // ---------------------------------------------------------------------------

  function Lookup(facts: Facts, name: string): FactValue { if name in facts then facts[name] else Null }

  predicate Truthy(v: FactValue) {
    match v
    case Number(n) => n != NaN && n != Fin(0.0)
    case Text(s) => s != ""
    case Boolean(b) => b
    case Null => false
    case List(items) => |items| > 0
  }

  /** `===` on scalars, element by element on lists; not-a-number equals nothing. */
  predicate SameItem(a: Item, b: Item) { a == b && a != NumItem(NaN) }

  predicate Same(a: FactValue, b: FactValue) {
    if a.List? && b.List? then
      |a.items| == |b.items| && forall i :: 0 <= i < |a.items| ==> SameItem(a.items[i], b.items[i])
    else !a.List? && a == b && a != Number(NaN)
  }

  function FromItem(item: Item): FactValue {
    match item
    case NumItem(n) => Number(n)
    case TextItem(s) => Text(s)
  }

  /** The number in a value, or none; a number that is not finite is an error. */
  function Numeric(v: FactValue, read: Reader): Result<Option<Num>, EvalError> {
    match v
    case Null => Ok(None)
    case Number(n) => if n.Fin? then Ok(Some(n)) else Err(NonFinite)
    case Boolean(b) => Ok(Some(Fin(if b then 1.0 else 0.0)))
    case Text(s) => Ok(read(s))
    case List(_) => Ok(None)
  }

  predicate Less(a: Num, b: Num) {
    match (a, b)
    case (Fin(x), Fin(y)) => x < y
    case (NegInf, Fin(_)) => true
    case (NegInf, PosInf) => true
    case (Fin(_), PosInf) => true
    case _ => false
  }

  predicate AtMost(a: Num, b: Num) { Less(a, b) || (a == b && a != NaN) }

  predicate Holds(op: Comparison, a: Num, b: Num) {
    match op
    case Gt => Less(b, a)
    case Gte => AtMost(b, a)
    case Lt => Less(a, b)
    case Lte => AtMost(a, b)
  }

  function Negate(a: Num): Num {
    match a
    case Fin(x) => Fin(-x)
    case PosInf => NegInf
    case NegInf => PosInf
    case NaN => NaN
  }

  function Plus(a: Num, b: Num): Num {
    match (a, b)
    case (Fin(x), Fin(y)) => Fin(x + y)
    case (NaN, _) => NaN
    case (_, NaN) => NaN
    case (PosInf, NegInf) => NaN
    case (NegInf, PosInf) => NaN
    case (PosInf, _) => PosInf
    case (_, PosInf) => PosInf
    case _ => NegInf
  }

  function Sign(a: Num): int {
    match a
    case Fin(x) => if x > 0.0 then 1 else if x < 0.0 then -1 else 0
    case PosInf => 1
    case NegInf => -1
    case NaN => 0
  }

  function Times(a: Num, b: Num): Num {
    match (a, b)
    case (Fin(x), Fin(y)) => Fin(x * y)
    case _ =>
      if a == NaN || b == NaN || Sign(a) == 0 || Sign(b) == 0 then NaN
      else if Sign(a) == Sign(b) then PosInf else NegInf
  }

  // ---------------------------------------------------------------------------
  // Operators on evaluated operands
  // ---------------------------------------------------------------------------

  function OrZero(n: Option<Num>): Num { if n.Some? then n.value else Fin(0.0) }

  function NumericOf(v: Answer, read: Reader): Result<Option<Num>, EvalError> {
    if v.Err? then Err(v.error) else Numeric(v.value, read)
  }

  function NotAnswer(v: Answer): Answer { if v.Err? then v else Ok(Boolean(!Truthy(v.value))) }

  function NullAnswer(v: Answer): Answer { if v.Err? then v else Ok(Boolean(v.value == Null)) }

  function SameAnswer(a: Answer, b: Answer, wanted: bool): Answer {
    if a.Err? then a else if b.Err? then b else Ok(Boolean(Same(a.value, b.value) == wanted))
  }

  /** A comparison against unknown information is false. */
  function CompareAnswer(op: Comparison, a: Answer, b: Answer, read: Reader): Answer {
    var x := NumericOf(a, read);
    if x.Err? then Err(x.error)
    else
      var y := NumericOf(b, read);
      if y.Err? then Err(y.error)
      else Ok(Boolean(x.value.Some? && y.value.Some? && Holds(op, x.value.value, y.value.value)))
  }

  /** The bounds are not looked at when the subject is unknown. */
  function BetweenAnswer(a: Answer, lo: Answer, hi: Answer, read: Reader): Answer {
    var x := NumericOf(a, read);
    if x.Err? then Err(x.error)
    else if x.value.None? then Ok(Boolean(false))
    else
      var low := NumericOf(lo, read);
      if low.Err? then Err(low.error)
      else
        var high := NumericOf(hi, read);
        if high.Err? then Err(high.error)
        else Ok(Boolean(low.value.Some? && high.value.Some? &&
                        AtMost(low.value.value, x.value.value) && AtMost(x.value.value, high.value.value)))
  }

  function IncludesAnswer(a: Answer, b: Answer): Answer {
    if a.Err? then a
    else if b.Err? then b
    else Ok(Boolean(a.value.List? && exists item :: item in a.value.items && Same(FromItem(item), b.value)))
  }

  function SubtractAnswer(a: Answer, b: Answer, read: Reader): Answer {
    var x := NumericOf(a, read);
    if x.Err? then Err(x.error)
    else
      var y := NumericOf(b, read);
      if y.Err? then Err(y.error) else Ok(Number(Plus(OrZero(x.value), Negate(OrZero(y.value)))))
  }

  // ---------------------------------------------------------------------------
  // Evaluation
  // ---------------------------------------------------------------------------

  function Eval(e: Expr, facts: Facts, read: Reader, depth: nat): Answer
    decreases e, 1
  {
    if depth > MAX_DEPTH then Err(TooDeep)
    else match e
      case Const(value) => Ok(value)
      case Fact(name) => Ok(Lookup(facts, name))
      case And(es) => EvalEvery(es, facts, read, depth + 1)
      case Or(es) => EvalSome(es, facts, read, depth + 1)
      case Not(a) => NotAnswer(Eval(a, facts, read, depth + 1))
      case Eq(a, b) => SameAnswer(Eval(a, facts, read, depth + 1), Eval(b, facts, read, depth + 1), true)
      case Neq(a, b) => SameAnswer(Eval(a, facts, read, depth + 1), Eval(b, facts, read, depth + 1), false)
      case Compare(op, a, b) =>
        CompareAnswer(op, Eval(a, facts, read, depth + 1), Eval(b, facts, read, depth + 1), read)
      case Between(a, lo, hi) =>
        BetweenAnswer(Eval(a, facts, read, depth + 1), Eval(lo, facts, read, depth + 1),
                      Eval(hi, facts, read, depth + 1), read)
      case In(a, es) =>
        var v := Eval(a, facts, read, depth + 1);
        if v.Err? then v else EvalIn(v.value, es, facts, read, depth + 1)
      case Includes(a, b) => IncludesAnswer(Eval(a, facts, read, depth + 1), Eval(b, facts, read, depth + 1))
      case IsNull(a) => NullAnswer(Eval(a, facts, read, depth + 1))
      case Add(es) => EvalAdd(es, Fin(0.0), facts, read, depth + 1)
      case Subtract(a, b) => SubtractAnswer(Eval(a, facts, read, depth + 1), Eval(b, facts, read, depth + 1), read)
      case Multiply(es) => EvalMultiply(es, Fin(1.0), facts, read, depth + 1)
      case Unrecognised => Err(UnknownOperator)
  }

  /** `every`: stops at the first element that does not hold. */
  function EvalEvery(es: seq<Expr>, facts: Facts, read: Reader, depth: nat): Answer
    decreases es, 0
  {
    if |es| == 0 then Ok(Boolean(true))
    else
      var v := Eval(es[0], facts, read, depth);
      if v.Err? then v
      else if !Truthy(v.value) then Ok(Boolean(false))
      else EvalEvery(es[1..], facts, read, depth)
  }

  /** `some`: stops at the first element that holds. */
  function EvalSome(es: seq<Expr>, facts: Facts, read: Reader, depth: nat): Answer
    decreases es, 0
  {
    if |es| == 0 then Ok(Boolean(false))
    else
      var v := Eval(es[0], facts, read, depth);
      if v.Err? then v
      else if Truthy(v.value) then Ok(Boolean(true))
      else EvalSome(es[1..], facts, read, depth)
  }

  function EvalIn(value: FactValue, es: seq<Expr>, facts: Facts, read: Reader, depth: nat): Answer
    decreases es, 0
  {
    if |es| == 0 then Ok(Boolean(false))
    else
      var v := Eval(es[0], facts, read, depth);
      if v.Err? then v
      else if Same(value, v.value) then Ok(Boolean(true))
      else EvalIn(value, es[1..], facts, read, depth)
  }

  function EvalAdd(es: seq<Expr>, acc: Num, facts: Facts, read: Reader, depth: nat): Answer
    decreases es, 0
  {
    if |es| == 0 then Ok(Number(acc))
    else
      var x := NumericOf(Eval(es[0], facts, read, depth), read);
      if x.Err? then Err(x.error) else EvalAdd(es[1..], Plus(acc, OrZero(x.value)), facts, read, depth)
  }

  function EvalMultiply(es: seq<Expr>, acc: Num, facts: Facts, read: Reader, depth: nat): Answer
    decreases es, 0
  {
    if |es| == 0 then Ok(Number(acc))
    else
      var x := NumericOf(Eval(es[0], facts, read, depth), read);
      if x.Err? then Err(x.error) else EvalMultiply(es[1..], Times(acc, OrZero(x.value)), facts, read, depth)
  }

  // ---------------------------------------------------------------------------
  // Only the facts a rule mentions matter
  // ---------------------------------------------------------------------------

  function Mentions(e: Expr): set<string>
    decreases e, 1
  {
    match e
    case Const(_) => {}
    case Fact(name) => {name}
    case And(es) => MentionsAll(es)
    case Or(es) => MentionsAll(es)
    case Not(a) => Mentions(a)
    case Eq(a, b) => Mentions(a) + Mentions(b)
    case Neq(a, b) => Mentions(a) + Mentions(b)
    case Compare(_, a, b) => Mentions(a) + Mentions(b)
    case Between(a, b, c) => Mentions(a) + Mentions(b) + Mentions(c)
    case In(a, es) => Mentions(a) + MentionsAll(es)
    case Includes(a, b) => Mentions(a) + Mentions(b)
    case IsNull(a) => Mentions(a)
    case Add(es) => MentionsAll(es)
    case Subtract(a, b) => Mentions(a) + Mentions(b)
    case Multiply(es) => MentionsAll(es)
    case Unrecognised => {}
  }

  function MentionsAll(es: seq<Expr>): set<string>
    decreases es, 0
  {
    if |es| == 0 then {} else Mentions(es[0]) + MentionsAll(es[1..])
  }

  ghost predicate AgreeOn(names: set<string>, f: Facts, g: Facts) {
    forall name :: name in names ==> Lookup(f, name) == Lookup(g, name)
  }

  /** Two sets of facts that agree on what a rule mentions give it the same answer, errors included. */
  lemma {:induction false} OnlyMentioned(e: Expr, f: Facts, g: Facts, read: Reader, depth: nat)
    requires AgreeOn(Mentions(e), f, g)
    ensures Eval(e, f, read, depth) == Eval(e, g, read, depth)
    decreases e, 2
  {
    match e
    case Const(_) =>
    case Fact(_) =>
    case Unrecognised =>
    case And(es) => OnlyMentionedAll(es, f, g, read, depth + 1, Fin(0.0));
    case Or(es) => OnlyMentionedAll(es, f, g, read, depth + 1, Fin(0.0));
    case Add(es) => OnlyMentionedAll(es, f, g, read, depth + 1, Fin(0.0));
    case Multiply(es) => OnlyMentionedAll(es, f, g, read, depth + 1, Fin(1.0));
    case Not(a) => OnlyMentioned(a, f, g, read, depth + 1);
    case IsNull(a) => OnlyMentioned(a, f, g, read, depth + 1);
    case In(a, es) => OnlyMentionedIn(e, a, es, f, g, read, depth);
    case Between(a, lo, hi) => OnlyMentionedBetween(e, f, g, read, depth);
    case Eq(a, b) => OnlyMentionedBinary(e, a, b, f, g, read, depth);
    case Neq(a, b) => OnlyMentionedBinary(e, a, b, f, g, read, depth);
    case Compare(_, a, b) => OnlyMentionedBinary(e, a, b, f, g, read, depth);
    case Includes(a, b) => OnlyMentionedBinary(e, a, b, f, g, read, depth);
    case Subtract(a, b) => OnlyMentionedBinary(e, a, b, f, g, read, depth);
  }

  predicate Binary(e: Expr) { e.Eq? || e.Neq? || e.Compare? || e.Includes? || e.Subtract? }

  lemma {:induction false} OnlyMentionedBinary(e: Expr, a: Expr, b: Expr, f: Facts, g: Facts, read: Reader, depth: nat)
    requires Binary(e) && e.left == a && e.right == b
    requires AgreeOn(Mentions(a) + Mentions(b), f, g)
    ensures Eval(e, f, read, depth) == Eval(e, g, read, depth)
    decreases e, 1
  {
    OnlyMentioned(a, f, g, read, depth + 1);
    OnlyMentioned(b, f, g, read, depth + 1);
    SameParts(e, f, g, read, depth);
  }

  lemma SameParts(e: Expr, f: Facts, g: Facts, read: Reader, depth: nat)
    requires Binary(e)
    requires Eval(e.left, f, read, depth + 1) == Eval(e.left, g, read, depth + 1)
    requires Eval(e.right, f, read, depth + 1) == Eval(e.right, g, read, depth + 1)
    ensures Eval(e, f, read, depth) == Eval(e, g, read, depth)
  {}

  lemma {:induction false} OnlyMentionedBetween(e: Expr, f: Facts, g: Facts, read: Reader, depth: nat)
    requires e.Between? && AgreeOn(Mentions(e), f, g)
    ensures Eval(e, f, read, depth) == Eval(e, g, read, depth)
    decreases e, 1
  {
    OnlyMentioned(e.subject, f, g, read, depth + 1);
    OnlyMentioned(e.low, f, g, read, depth + 1);
    OnlyMentioned(e.high, f, g, read, depth + 1);
  }

  lemma {:induction false} OnlyMentionedIn(
    e: Expr, a: Expr, es: seq<Expr>, f: Facts, g: Facts, read: Reader, depth: nat)
    requires e == In(a, es) && AgreeOn(Mentions(a) + MentionsAll(es), f, g)
    ensures Eval(e, f, read, depth) == Eval(e, g, read, depth)
    decreases e, 1
  {
    OnlyMentioned(a, f, g, read, depth + 1);
    var v := Eval(a, f, read, depth + 1);
    if v.Ok? { OnlyMentionedOptions(es, f, g, read, depth + 1, v.value); }
  }

  lemma {:induction false} OnlyMentionedOptions(
    es: seq<Expr>, f: Facts, g: Facts, read: Reader, depth: nat, value: FactValue)
    requires AgreeOn(MentionsAll(es), f, g)
    ensures EvalIn(value, es, f, read, depth) == EvalIn(value, es, g, read, depth)
    decreases es, 0
  {
    if |es| > 0 {
      OnlyMentioned(es[0], f, g, read, depth);
      OnlyMentionedOptions(es[1..], f, g, read, depth, value);
    }
  }

  lemma {:induction false} OnlyMentionedAll(
    es: seq<Expr>, f: Facts, g: Facts, read: Reader, depth: nat, acc: Num)
    requires AgreeOn(MentionsAll(es), f, g)
    ensures EvalEvery(es, f, read, depth) == EvalEvery(es, g, read, depth)
    ensures EvalSome(es, f, read, depth) == EvalSome(es, g, read, depth)
    ensures EvalAdd(es, acc, f, read, depth) == EvalAdd(es, acc, g, read, depth)
    ensures EvalMultiply(es, acc, f, read, depth) == EvalMultiply(es, acc, g, read, depth)
    decreases es, 0
  {
    if |es| > 0 {
      OnlyMentioned(es[0], f, g, read, depth);
      var x := NumericOf(Eval(es[0], f, read, depth), read);
      OnlyMentionedAll(es[1..], f, g, read, depth, acc);
      if x.Ok? {
        OnlyMentionedAll(es[1..], f, g, read, depth, Plus(acc, OrZero(x.value)));
        OnlyMentionedAll(es[1..], f, g, read, depth, Times(acc, OrZero(x.value)));
      }
    }
  }
}

/** Rule sets and the solutions they leave open (packages/core/src/advice/eligibility.ts). */
module Eligibility {
  import opened Prelude
  import opened Rules
  import opened RuleLearning

  datatype Severity = Blocking | Warning | Advisory

  datatype Rule = Rule(key: string, condition: Expr, severity: Option<Severity>, failMessage: string)

  datatype Outcome = Outcome(
    key: string, satisfied: bool, severity: Severity, message: Option<string>, error: Option<EvalError>)

  datatype RuleSetOutcome = RuleSetOutcome(
    satisfied: bool, blockedBy: seq<string>, warnings: seq<string>, outcomes: seq<Outcome>)

  datatype CaseType = CaseType(key: string, jurisdictions: set<string>, rules: seq<Rule>)

  // ---------------------------------------------------------------------------
  // One rule set
  // ---------------------------------------------------------------------------

  function Judge(rule: Rule, facts: Facts, read: Reader): Outcome {
    var v := Eval(rule.condition, facts, read, 0);
    if v.Err? then Outcome(rule.key, false, Blocking, Some(rule.failMessage), Some(v.error))
    else
      var satisfied := Truthy(v.value);
      Outcome(rule.key, satisfied, if rule.severity.Some? then rule.severity.value else Blocking,
              if satisfied then None else Some(rule.failMessage), None)
  }

  function JudgeAll(rules: seq<Rule>, facts: Facts, read: Reader): (outcomes: seq<Outcome>)
    ensures |outcomes| == |rules|
    ensures forall i :: 0 <= i < |rules| ==> outcomes[i] == Judge(rules[i], facts, read)
  {
    seq(|rules|, i requires 0 <= i < |rules| => Judge(rules[i], facts, read))
  }

  function Failing(outcomes: seq<Outcome>, severity: Severity): seq<string> {
    if |outcomes| == 0 then []
    else (if !outcomes[0].satisfied && outcomes[0].severity == severity then [outcomes[0].key] else [])
         + Failing(outcomes[1..], severity)
  }

  function EvaluateRules(rules: seq<Rule>, facts: Facts, read: Reader): RuleSetOutcome {
    var outcomes := JudgeAll(rules, facts, read);
    var blockedBy := Failing(outcomes, Blocking);
    RuleSetOutcome(|blockedBy| == 0, blockedBy, Failing(outcomes, Warning), outcomes)
  }

  /** What stands in the way: a rule that is broken, or a blocking rule that does not hold. */
  predicate Obstructs(rule: Rule, facts: Facts, read: Reader) {
    var v := Eval(rule.condition, facts, read, 0);
    v.Err? || (!Truthy(v.value) && rule.severity in {None, Some(Blocking)})
  }

  predicate Unobstructed(rules: seq<Rule>, facts: Facts, read: Reader) {
    forall i :: 0 <= i < |rules| ==> !Obstructs(rules[i], facts, read)
  }

  lemma {:induction false} FailingMembers(outcomes: seq<Outcome>, severity: Severity, key: string)
    ensures key in Failing(outcomes, severity) <==>
            exists o :: o in outcomes && !o.satisfied && o.severity == severity && o.key == key
  {
    if |outcomes| > 0 {
      FailingMembers(outcomes[1..], severity, key);
      assert outcomes == [outcomes[0]] + outcomes[1..];
    }
  }

  /** The blockers are the keys of the rules that obstruct. */
  lemma BlockersMeaning(rules: seq<Rule>, facts: Facts, read: Reader, key: string)
    ensures key in EvaluateRules(rules, facts, read).blockedBy <==>
            exists i :: 0 <= i < |rules| && rules[i].key == key && Obstructs(rules[i], facts, read)
  {
    var outcomes := JudgeAll(rules, facts, read);
    FailingMembers(outcomes, Blocking, key);
    forall i | 0 <= i < |rules| ensures outcomes[i].key == rules[i].key && Stops(outcomes[i]) == Obstructs(rules[i], facts, read) {
      JudgeMeaning(rules[i], facts, read);
    }
    if key in EvaluateRules(rules, facts, read).blockedBy {
      var o :| o in outcomes && Stops(o) && o.key == key;
      var i :| 0 <= i < |outcomes| && outcomes[i] == o;
      assert Obstructs(rules[i], facts, read);
    }
    if i :| 0 <= i < |rules| && rules[i].key == key && Obstructs(rules[i], facts, read) {
      assert outcomes[i] in outcomes && Stops(outcomes[i]);
    }
  }

  predicate Stops(o: Outcome) { !o.satisfied && o.severity == Blocking }

  /** A rule that could not be evaluated stops the rule set whatever its own severity, and says so. */
  lemma JudgeMeaning(rule: Rule, facts: Facts, read: Reader)
    ensures Stops(Judge(rule, facts, read)) <==> Obstructs(rule, facts, read)
    ensures Judge(rule, facts, read).error.Some? <==> Eval(rule.condition, facts, read, 0).Err?
    ensures Judge(rule, facts, read).message.None? <==> Satisfied(Eval(rule.condition, facts, read, 0))
    ensures Judge(rule, facts, read).key == rule.key
  {}

  /** A rule set is satisfied exactly when no rule obstructs it. */
  lemma RuleSetMeaning(rules: seq<Rule>, facts: Facts, read: Reader)
    ensures EvaluateRules(rules, facts, read).satisfied <==> Unobstructed(rules, facts, read)
  {
    var blockedBy := EvaluateRules(rules, facts, read).blockedBy;
    if |blockedBy| > 0 {
      BlockersMeaning(rules, facts, read, blockedBy[0]);
    }
    forall i | 0 <= i < |rules| && Obstructs(rules[i], facts, read) ensures |blockedBy| > 0 {
      BlockersMeaning(rules, facts, read, rules[i].key);
    }
  }

  // ---------------------------------------------------------------------------
  // The solutions that are open
  // ---------------------------------------------------------------------------

  /** Keys of the candidate case types whose rule set is satisfied, in the order configured. */
  function Available(caseTypes: seq<CaseType>, jurisdiction: string, facts: Facts, read: Reader): seq<string> {
    if |caseTypes| == 0 then []
    else (if jurisdiction in caseTypes[0].jurisdictions && EvaluateRules(caseTypes[0].rules, facts, read).satisfied
          then [caseTypes[0].key] else [])
         + Available(caseTypes[1..], jurisdiction, facts, read)
  }

  function Keys(caseTypes: seq<CaseType>): seq<string> {
    if |caseTypes| == 0 then [] else [caseTypes[0].key] + Keys(caseTypes[1..])
  }

  /** Available are exactly the case types of the jurisdiction that no rule obstructs, in the order configured. */
  lemma {:induction false} AvailableMeaning(caseTypes: seq<CaseType>, jurisdiction: string, facts: Facts, read: Reader)
    ensures forall key :: key in Available(caseTypes, jurisdiction, facts, read) <==>
      exists i :: 0 <= i < |caseTypes| && caseTypes[i].key == key && jurisdiction in caseTypes[i].jurisdictions
                  && Unobstructed(caseTypes[i].rules, facts, read)
    ensures Within(Available(caseTypes, jurisdiction, facts, read), Keys(caseTypes))
  {
    if |caseTypes| > 0 {
      var rest := caseTypes[1..];
      AvailableMeaning(rest, jurisdiction, facts, read);
      RuleSetMeaning(caseTypes[0].rules, facts, read);
      assert caseTypes == [caseTypes[0]] + rest;
      var xs, ys := Available(rest, jurisdiction, facts, read), Keys(rest);
      var key := [caseTypes[0].key];
      assert (key + xs)[1..] == xs && (key + ys)[1..] == ys && [] + xs == xs;
    }
  }

  predicate SafeRules(rules: seq<Rule>) { forall i :: 0 <= i < |rules| ==> Safe(rules[i].condition) }

  /** `xs` is what remains of `ys` after leaving some elements out. */
  predicate Within(xs: seq<string>, ys: seq<string>) {
    |xs| == 0 || (|ys| > 0 && ((xs[0] == ys[0] && Within(xs[1..], ys[1..])) || Within(xs, ys[1..])))
  }

  /** Rules that learning cannot revoke: a rule set that is satisfied stays satisfied as more becomes known. */
  lemma RuleSetStaysSatisfied(rules: seq<Rule>, before: Facts, after: Facts, read: Reader)
    requires SafeRules(rules) && AllUsable(before) && Learns(before, after)
    requires EvaluateRules(rules, before, read).satisfied
    ensures EvaluateRules(rules, after, read).satisfied
  {
    RuleSetMeaning(rules, before, read);
    RuleSetMeaning(rules, after, read);
    forall i | 0 <= i < |rules| ensures !Obstructs(rules[i], after, read) {
      assert !Obstructs(rules[i], before, read);
      if Satisfied(Eval(rules[i].condition, before, read, 0)) {
        LearningNeverRevokes(rules[i].condition, before, after, read);
      } else {
        ShallowRuleEvaluates(rules[i].condition, after, read, 0);
      }
    }
  }

  lemma WithinStep(key: string, xs: seq<string>, ys: seq<string>)
    requires Within(xs, ys)
    ensures Within([] + xs, [] + ys) && Within([] + xs, [key] + ys) && Within([key] + xs, [key] + ys)
  {
    assert ([key] + xs)[1..] == xs && ([key] + ys)[1..] == ys;
    assert [] + xs == xs && [] + ys == ys;
  }

  /** Gathering information only ever opens solutions, and their order does not change. */
  lemma {:induction false} LearningNeverCloses(
    caseTypes: seq<CaseType>, jurisdiction: string, before: Facts, after: Facts, read: Reader)
    requires forall i :: 0 <= i < |caseTypes| ==> SafeRules(caseTypes[i].rules)
    requires AllUsable(before) && Learns(before, after)
    ensures Within(Available(caseTypes, jurisdiction, before, read), Available(caseTypes, jurisdiction, after, read))
  {
    if |caseTypes| > 0 {
      LearningNeverCloses(caseTypes[1..], jurisdiction, before, after, read);
      if EvaluateRules(caseTypes[0].rules, before, read).satisfied {
        RuleSetStaysSatisfied(caseTypes[0].rules, before, after, read);
      }
      WithinStep(caseTypes[0].key, Available(caseTypes[1..], jurisdiction, before, read),
                 Available(caseTypes[1..], jurisdiction, after, read));
    }
  }

  /** A broken rule closes its solution whatever severity was configured for it. */
  lemma {:induction false} BrokenRuleCloses(
    caseTypes: seq<CaseType>, jurisdiction: string, facts: Facts, read: Reader, key: string)
    requires forall i :: 0 <= i < |caseTypes| && caseTypes[i].key == key ==>
      exists j :: 0 <= j < |caseTypes[i].rules| && Eval(caseTypes[i].rules[j].condition, facts, read, 0).Err?
    ensures key !in Available(caseTypes, jurisdiction, facts, read)
  {
    if |caseTypes| > 0 {
      BrokenRuleCloses(caseTypes[1..], jurisdiction, facts, read, key);
      if caseTypes[0].key == key {
        var j :| 0 <= j < |caseTypes[0].rules| && Eval(caseTypes[0].rules[j].condition, facts, read, 0).Err?;
        assert Obstructs(caseTypes[0].rules[j], facts, read);
        RuleSetMeaning(caseTypes[0].rules, facts, read);
      }
    }
  }

  // ---------------------------------------------------------------------------
  // The fingerprint of a rule set
  // ---------------------------------------------------------------------------

  const MODULUS: nat := 0xffff_ffff_ffff_ffff

  type Order = (string, string) -> bool

  type Sorter = seq<string> -> seq<string>

  /** An order in which two different texts are never level. */
  ghost predicate Strict(le: Order) { forall a, b :: le(a, b) && le(b, a) ==> a == b }

  predicate Sorted(xs: seq<string>, le: Order) { forall i, j :: 0 <= i < j < |xs| ==> le(xs[i], xs[j]) }

  /** What the library's sort promises: the same elements, in order. */
  ghost predicate Sorts(sort: Sorter, le: Order) {
    Strict(le) && forall xs :: Sorted(sort(xs), le) && multiset(sort(xs)) == multiset(xs)
  }

  /** However a library sorts, the sorted form of a collection is one sequence. */
  lemma {:induction false} SortedUnique(xs: seq<string>, ys: seq<string>, le: Order)
    requires Strict(le) && Sorted(xs, le) && Sorted(ys, le) && multiset(xs) == multiset(ys)
    ensures xs == ys
  {
    assert |multiset(xs)| == |multiset(ys)|;
    if |xs| > 0 {
      SortedFirst(xs, ys, le);
      SortedRest(xs, le);
      SortedRest(ys, le);
      SortedUnique(xs[1..], ys[1..], le);
    }
  }

  lemma SortedRest(xs: seq<string>, le: Order)
    requires Sorted(xs, le) && |xs| > 0
    ensures Sorted(xs[1..], le) && xs == [xs[0]] + xs[1..]
    ensures multiset(xs[1..]) == multiset(xs) - multiset{xs[0]}
  {
    assert xs == [xs[0]] + xs[1..];
    assert multiset(xs) == multiset{xs[0]} + multiset(xs[1..]);
  }

  lemma SortedFirst(xs: seq<string>, ys: seq<string>, le: Order)
    requires Strict(le) && Sorted(xs, le) && Sorted(ys, le) && multiset(xs) == multiset(ys)
    requires |xs| > 0 && |ys| > 0
    ensures xs[0] == ys[0]
  {
    assert xs[0] in multiset(ys) && ys[0] in multiset(xs);
    var i :| 0 <= i < |xs| && xs[i] == ys[0];
    var j :| 0 <= j < |ys| && ys[j] == xs[0];
  }

  function Join(parts: seq<string>, separator: string): string {
    if |parts| == 0 then ""
    else if |parts| == 1 then parts[0]
    else parts[0] + separator + Join(parts[1..], separator)
  }

  function RuleKeys(rules: seq<Rule>): (keys: seq<string>)
    ensures |keys| == |rules|
  {
    seq(|rules|, i requires 0 <= i < |rules| => rules[i].key)
  }

  function Part(caseType: CaseType, sort: Sorter): string {
    caseType.key + "@" + Join(sort(RuleKeys(caseType.rules)), "|")
  }

  function Mapped<A, B>(f: A -> B, xs: seq<A>): (ys: seq<B>) {
    if |xs| == 0 then [] else [f(xs[0])] + Mapped(f, xs[1..])
  }

  function Parts(caseTypes: seq<CaseType>, sort: Sorter): seq<string> {
    Mapped((c: CaseType) => Part(c, sort), caseTypes)
  }

  /** The text as a number in base 31. */
  function Base31(text: string): nat {
    if |text| == 0 then 0 else Base31(text[..|text| - 1]) * 31 + text[|text| - 1] as nat
  }

  /** The text that is hashed. */
  function Described(caseTypes: seq<CaseType>, sort: Sorter): string { Join(sort(Parts(caseTypes, sort)), ";") }

  /** The fingerprint, as a number; the text that is stored is its sixteen hexadecimal digits. */
  method Fingerprint(caseTypes: seq<CaseType>, sort: Sorter) returns (hash: nat)
    ensures hash == Base31(Described(caseTypes, sort)) % MODULUS
  {
    var text := Described(caseTypes, sort);
    hash := 0;
    for i := 0 to |text|
      invariant hash == Base31(text[..i]) % MODULUS
    {
      assert text[..i + 1][..i] == text[..i];
      ReduceEarly(Base31(text[..i]), text[i] as nat);
      hash := (hash * 31 + text[i] as nat) % MODULUS;
    }
    assert text[..|text|] == text;
  }

  lemma ReduceEarly(n: nat, digit: nat)
    ensures (n % MODULUS * 31 + digit) % MODULUS == (n * 31 + digit) % MODULUS
  {
    var q := n / MODULUS;
    assert n * 31 + digit == (n % MODULUS * 31 + digit) + MODULUS * (31 * q);
  }

  /** All that the fingerprint can see of a case type. */
  datatype Label = Label(key: string, ruleKeys: multiset<string>)

  function LabelOf(caseType: CaseType): Label { Label(caseType.key, multiset(RuleKeys(caseType.rules))) }

  lemma PartFromLabel(a: CaseType, b: CaseType, sort: Sorter, le: Order)
    requires Sorts(sort, le) && LabelOf(a) == LabelOf(b)
    ensures Part(a, sort) == Part(b, sort)
  {
    SortedUnique(sort(RuleKeys(a.rules)), sort(RuleKeys(b.rules)), le);
  }

  function Bag<A, B>(f: A -> B, xs: seq<A>): multiset<B> {
    if |xs| == 0 then multiset{} else multiset{f(xs[0])} + Bag(f, xs[1..])
  }

  lemma BagOne<A, B>(f: A -> B, x: A)
    ensures Bag(f, [x]) == multiset{f(x)}
  {
    assert [x][1..] == [];
    assert Bag(f, [x]) == multiset{f(x)} + Bag(f, []);
  }

  lemma {:induction false} BagOfMapped<A, B>(f: A -> B, xs: seq<A>)
    ensures multiset(Mapped(f, xs)) == Bag(f, xs)
  {
    if |xs| > 0 { BagOfMapped(f, xs[1..]); }
  }

  function Without<A>(xs: seq<A>, j: nat): seq<A>
    requires j < |xs|
  {
    xs[..j] + xs[j + 1..]
  }

  lemma {:induction false} BagWithout<A, B>(f: A -> B, xs: seq<A>, j: nat)
    requires j < |xs|
    ensures Bag(f, xs) == multiset{f(xs[j])} + Bag(f, Without(xs, j))
  {
    if j == 0 {
      assert Without(xs, j) == xs[1..];
    } else {
      BagWithout(f, xs[1..], j - 1);
      assert Without(xs, j)[0] == xs[0];
      assert Without(xs, j)[1..] == Without(xs[1..], j - 1);
    }
  }

  lemma {:induction false} BagMember<A, B>(f: A -> B, xs: seq<A>, y: B) returns (j: nat)
    requires y in Bag(f, xs)
    ensures j < |xs| && f(xs[j]) == y
  {
    if f(xs[0]) == y {
      j := 0;
    } else {
      j := BagMember(f, xs[1..], y);
      j := j + 1;
    }
  }

  /** Equal under `f` means equal under `g`, for the elements that occur. */
  ghost predicate Determines<A(!new), B, C>(f: A -> B, g: A -> C, a: seq<A>, b: seq<A>) {
    forall x, y :: x in a && y in b && f(x) == f(y) ==> g(x) == g(y)
  }

  lemma DeterminesRest<A(!new), B, C>(f: A -> B, g: A -> C, a: seq<A>, b: seq<A>, j: nat)
    requires Determines(f, g, a, b) && |a| > 0 && j < |b| && f(a[0]) == f(b[j])
    ensures Determines(f, g, a[1..], Without(b, j)) && g(a[0]) == g(b[j])
  {
    assert a[0] in a && b[j] in b;
    assert forall x :: x in a[1..] ==> x in a;
    assert forall y :: y in Without(b, j) ==> y in b;
  }

  lemma {:induction false} BagDetermined<A(!new), B, C>(f: A -> B, g: A -> C, a: seq<A>, b: seq<A>)
    requires Determines(f, g, a, b) && Bag(f, a) == Bag(f, b)
    ensures Bag(g, a) == Bag(g, b)
  {
    if |a| > 0 {
      var j := BagMember(f, b, f(a[0]));
      BagWithout(f, b, j);
      BagWithout(g, b, j);
      assert Bag(f, a[1..]) == Bag(f, a) - multiset{f(a[0])};
      DeterminesRest(f, g, a, b, j);
      BagDetermined(f, g, a[1..], Without(b, j));
    }
  }

  // ---------------------------------------------------------------------------
  // Exactly what the fingerprinted text tells apart
  // ---------------------------------------------------------------------------

  predicate SlugChar(c: char) { 'a' <= c <= 'z' || '0' <= c <= '9' || c == '-' }

  /** The keys a case type definition may use (packages/core/src/case-types/schema.ts). */
  predicate Slug(key: string) { |key| > 0 && forall i :: 0 <= i < |key| ==> SlugChar(key[i]) }

  predicate SlugKeys(caseTypes: seq<CaseType>) { forall c :: c in caseTypes ==> SlugKeyed(c) }

  predicate SlugKeyed(c: CaseType) { Slug(c.key) && forall i :: 0 <= i < |c.rules| ==> Slug(c.rules[i].key) }

  predicate Free(text: string, c: char) { forall i :: 0 <= i < |text| ==> text[i] != c }

  /** Texts without the separator, none of them empty. */
  predicate Separable(parts: seq<string>, c: char) { forall x :: x in parts ==> |x| > 0 && Free(x, c) }

  lemma NotBefore(x: string, s: string, c: char, k: nat)
    requires Free(x, c) && k < |x + [c] + s| && (x + [c] + s)[k] == c
    ensures k >= |x|
  {}

  lemma CutUnique(x: string, s: string, y: string, t: string, c: char)
    requires Free(x, c) && Free(y, c) && x + [c] + s == y + [c] + t
    ensures x == y && s == t
  {
    var whole := x + [c] + s;
    NotBefore(x, s, c, |y|);
    NotBefore(y, t, c, |x|);
    assert x == whole[..|x|] && y == whole[..|y|];
    assert s == whole[|x| + 1..] && t == whole[|y| + 1..];
  }

  lemma JoinFirst(xs: seq<string>, c: char)
    requires |xs| > 0 && Separable(xs, c)
    ensures |xs| == 1 ==> Join(xs, [c]) == xs[0] && Free(xs[0], c)
    ensures |xs| > 1 ==> Join(xs, [c]) == xs[0] + [c] + Join(xs[1..], [c]) && !Free(Join(xs, [c]), c)
  {
    assert xs[0] in xs;
    if |xs| > 1 { NotFree(xs[0], Join(xs[1..], [c]), c); }
  }

  lemma NotFree(x: string, s: string, c: char)
    ensures !Free(x + [c] + s, c)
  {
    assert (x + [c] + s)[|x|] == c;
  }

  lemma {:induction false} JoinInjective(xs: seq<string>, ys: seq<string>, c: char)
    requires Separable(xs, c) && Separable(ys, c) && Join(xs, [c]) == Join(ys, [c])
    ensures xs == ys
  {
    if |xs| > 0 { JoinFirst(xs, c); assert xs[0] in xs; }
    if |ys| > 0 { JoinFirst(ys, c); assert ys[0] in ys; }
    if |xs| > 1 {
      CutUnique(xs[0], Join(xs[1..], [c]), ys[0], Join(ys[1..], [c]), c);
      assert forall x :: x in xs[1..] ==> x in xs;
      assert forall y :: y in ys[1..] ==> y in ys;
      JoinInjective(xs[1..], ys[1..], c);
      assert xs == [xs[0]] + xs[1..] && ys == [ys[0]] + ys[1..];
    }
  }

  lemma {:induction false} JoinFree(xs: seq<string>, separator: char, c: char)
    requires separator != c && forall x :: x in xs ==> Free(x, c)
    ensures Free(Join(xs, [separator]), c)
  {
    if |xs| > 0 {
      assert xs[0] in xs;
      assert forall x :: x in xs[1..] ==> x in xs;
      JoinFree(xs[1..], separator, c);
    }
  }

  lemma SortedMembers(xs: seq<string>, sort: Sorter, le: Order, x: string)
    requires Sorts(sort, le)
    ensures x in sort(xs) <==> x in xs
  {
    assert x in multiset(sort(xs)) <==> x in multiset(xs);
  }

  lemma SortedKeys(a: CaseType, sort: Sorter, le: Order)
    requires Sorts(sort, le) && SlugKeyed(a)
    ensures forall x :: x in sort(RuleKeys(a.rules)) ==> Slug(x)
  {
    forall x | x in sort(RuleKeys(a.rules)) ensures Slug(x) { SortedMembers(RuleKeys(a.rules), sort, le, x); }
  }

  lemma PartSeparable(a: CaseType, sort: Sorter, le: Order)
    requires Sorts(sort, le) && SlugKeyed(a)
    ensures |Part(a, sort)| > 0 && Free(Part(a, sort), ';')
  {
    SortedKeys(a, sort, le);
    JoinFree(sort(RuleKeys(a.rules)), '|', ';');
  }

  lemma LabelFromPart(a: CaseType, b: CaseType, sort: Sorter, le: Order)
    requires Sorts(sort, le) && SlugKeyed(a) && SlugKeyed(b) && Part(a, sort) == Part(b, sort)
    ensures LabelOf(a) == LabelOf(b)
  {
    var xs, ys := sort(RuleKeys(a.rules)), sort(RuleKeys(b.rules));
    CutUnique(a.key, Join(xs, "|"), b.key, Join(ys, "|"), '@');
    SortedKeys(a, sort, le);
    SortedKeys(b, sort, le);
    JoinInjective(xs, ys, '|');
    assert multiset(xs) == multiset(RuleKeys(a.rules)) && multiset(ys) == multiset(RuleKeys(b.rules));
  }

  lemma {:induction false} MappedMember<A, B>(f: A -> B, xs: seq<A>, y: B) returns (x: A)
    requires y in Mapped(f, xs)
    ensures x in xs && f(x) == y
  {
    if f(xs[0]) == y { x := xs[0]; } else { x := MappedMember(f, xs[1..], y); }
  }

  lemma SortedPartsSeparable(a: seq<CaseType>, sort: Sorter, le: Order)
    requires Sorts(sort, le) && SlugKeys(a)
    ensures Separable(sort(Parts(a, sort)), ';')
  {
    forall x | x in sort(Parts(a, sort)) ensures |x| > 0 && Free(x, ';') {
      SortedMembers(Parts(a, sort), sort, le, x);
      var c := MappedMember((c: CaseType) => Part(c, sort), a, x);
      PartSeparable(c, sort, le);
    }
  }

  /**
   * The order of case types and of the rules inside them does not matter. Nor does anything else about the
   * rules than their keys: editing a rule's condition under the same key leaves the fingerprint as it was.
   */
  lemma FingerprintSeesOnlyKeys(a: seq<CaseType>, b: seq<CaseType>, sort: Sorter, le: Order)
    requires Sorts(sort, le) && Bag(LabelOf, a) == Bag(LabelOf, b)
    ensures Described(a, sort) == Described(b, sort)
  {
    var part := (c: CaseType) => Part(c, sort);
    forall x, y | LabelOf(x) == LabelOf(y) ensures part(x) == part(y) {
      PartFromLabel(x, y, sort, le);
    }
    BagDetermined(LabelOf, part, a, b);
    BagOfMapped(part, a);
    BagOfMapped(part, b);
    SortedUnique(sort(Parts(a, sort)), sort(Parts(b, sort)), le);
  }

  lemma LabelsFromDescription(a: seq<CaseType>, b: seq<CaseType>, sort: Sorter, le: Order)
    requires Sorts(sort, le) && SlugKeys(a) && SlugKeys(b) && Described(a, sort) == Described(b, sort)
    ensures Bag(LabelOf, a) == Bag(LabelOf, b)
  {
    var part := (c: CaseType) => Part(c, sort);
    SortedPartsSeparable(a, sort, le);
    SortedPartsSeparable(b, sort, le);
    JoinInjective(sort(Parts(a, sort)), sort(Parts(b, sort)), ';');
    assert multiset(Parts(a, sort)) == multiset(Parts(b, sort));
    BagOfMapped(part, a);
    BagOfMapped(part, b);
    forall x, y | x in a && y in b && part(x) == part(y) ensures LabelOf(x) == LabelOf(y) {
      LabelFromPart(x, y, sort, le);
    }
    BagDetermined(part, LabelOf, a, b);
  }

  /**
   * On the keys that definitions may use, the text tells two rule sets apart exactly when their case types
   * differ in some key or in the keys of their rules.
   */
  lemma DescribedIff(a: seq<CaseType>, b: seq<CaseType>, sort: Sorter, le: Order)
    requires Sorts(sort, le) && SlugKeys(a) && SlugKeys(b)
    ensures Described(a, sort) == Described(b, sort) <==> Bag(LabelOf, a) == Bag(LabelOf, b)
  {
    if Described(a, sort) == Described(b, sort) { LabelsFromDescription(a, b, sort, le); }
    if Bag(LabelOf, a) == Bag(LabelOf, b) { FingerprintSeesOnlyKeys(a, b, sort, le); }
  }

  function OneRule(key: string, ruleKey: string, holds: bool): CaseType {
    CaseType(key, {"scotland"}, [Rule(ruleKey, Const(Boolean(holds)), None, "")])
  }

  /** A rule edited under its key: the fingerprint is the same, and another solution is open. */
  lemma EditedRuleSameFingerprint(key: string, ruleKey: string, sort: Sorter, le: Order, facts: Facts, read: Reader)
    requires Sorts(sort, le)
    ensures var a, b := [OneRule(key, ruleKey, true)], [OneRule(key, ruleKey, false)];
      && Described(a, sort) == Described(b, sort)
      && Available(a, "scotland", facts, read) == [key]
      && Available(b, "scotland", facts, read) == []
  {
    var a, b := OneRule(key, ruleKey, true), OneRule(key, ruleKey, false);
    assert RuleKeys(a.rules) == [ruleKey] == RuleKeys(b.rules);
    BagOne(LabelOf, a);
    BagOne(LabelOf, b);
    FingerprintSeesOnlyKeys([a], [b], sort, le);
    OneRuleOpens(key, ruleKey, true, facts, read);
    OneRuleOpens(key, ruleKey, false, facts, read);
  }

  lemma OneRuleOpens(key: string, ruleKey: string, holds: bool, facts: Facts, read: Reader)
    ensures Available([OneRule(key, ruleKey, holds)], "scotland", facts, read) == if holds then [key] else []
  {
    var c := OneRule(key, ruleKey, holds);
    RuleSetMeaning(c.rules, facts, read);
    assert Obstructs(c.rules[0], facts, read) == !holds;
    assert [c][1..] == [];
  }

  /** Case types with different keys, and texts that differ, can have one fingerprint too. */
  lemma KeysCollide(sort: Sorter, le: Order)
    requires Sorts(sort, le)
    ensures var a, b := [CaseType("an", {"scotland"}, [])], [CaseType("c0", {"scotland"}, [])];
      && SlugKeys(a) && SlugKeys(b) && Bag(LabelOf, a) != Bag(LabelOf, b)
      && Base31(Described(a, sort)) == Base31(Described(b, sort))
  {
    var a, b := CaseType("an", {"scotland"}, []), CaseType("c0", {"scotland"}, []);
    SortOne(a, sort, le);
    SortOne(b, sort, le);
    BagOne(LabelOf, a);
    BagOne(LabelOf, b);
    assert LabelOf(a) in Bag(LabelOf, [a]) && LabelOf(a) !in Bag(LabelOf, [b]);
    ThreeLetters('a', 'n', '@');
    ThreeLetters('c', '0', '@');
  }

  lemma MappedOne<A, B>(f: A -> B, x: A)
    ensures Mapped(f, [x]) == [f(x)]
  {
    assert [x][1..] == [];
    assert Mapped(f, [x]) == [f(x)] + Mapped(f, []);
  }

  lemma SortOne(c: CaseType, sort: Sorter, le: Order)
    requires Sorts(sort, le) && c.rules == []
    ensures Described([c], sort) == c.key + "@"
  {
    assert |multiset(sort(RuleKeys([])))| == |multiset(RuleKeys([]))|;
    assert sort(RuleKeys(c.rules)) == [];
    var parts := Parts([c], sort);
    MappedOne((c: CaseType) => Part(c, sort), c);
    assert Part(c, sort) == c.key + "@" + "" == c.key + "@";
    assert parts == [Part(c, sort)];
    SortedUnique(sort(parts), parts, le);
  }

  lemma ThreeLetters(x: char, y: char, z: char)
    ensures Base31([x, y, z]) == (x as nat * 31 + y as nat) * 31 + z as nat
  {
    assert [x, y, z][..2] == [x, y] && [x, y][..1] == [x] && [x][..0] == [];
    assert Base31([x]) == x as nat;
    assert Base31([x, y]) == x as nat * 31 + y as nat;
  }
}

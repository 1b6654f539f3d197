/**
 * Building an income and expenditure statement (packages/core/src/sfs/statement.ts):
 * its lines, totals, and the categories that exceed their figure.
 */
module Statement {
  import opened Prelude
  import opened Money

  datatype Section = Income | Expenditure | Asset

  /** A line as entered; `details` stands for the fields that are only carried along. */
  datatype Entry = Entry(
    section: Section,
    category: string,
    amount: int,
    frequency: Frequency,
    explanation: Option<string>,
    details: string)

  datatype Line = Line(entry: Entry, monthly: int, trigger: Option<int>, exceeds: bool)

  datatype Household = Household(adults: int, children: int)

  /** Figures by category and then by household band. */
  datatype Triggers = Triggers(version: string, categories: map<string, map<string, int>>)

  datatype Totals = Totals(income: int, expenditure: int, surplus: int, assets: int)

  datatype Exceedance = Exceedance(
    category: string, amount: int, trigger: int, overBy: int, explanation: Option<string>, provided: bool)

  datatype Built = Built(lines: seq<Line>, totals: Totals, exceedances: seq<Exceedance>)

  /** What a statement is built from, the test for blank text being the library's. */
  datatype Input = Input(entries: seq<Entry>, household: Household, triggers: Option<Triggers>, blank: string -> bool)

  // ---------------------------------------------------------------------------
  // Trigger figures
  // ---------------------------------------------------------------------------

  function HouseholdBand(household: Household): string {
    var size := Max(1, household.adults + household.children);
    if size >= 4 then "4+" else if size == 3 then "3" else if size == 2 then "2" else "1"
  }

  function TriggerFigureFor(triggers: Option<Triggers>, category: string, household: Household): Option<int> {
    if triggers.None? || category !in triggers.value.categories then None
    else
      var band := triggers.value.categories[category];
      if HouseholdBand(household) in band then Some(band[HouseholdBand(household)])
      else if "4+" in band then Some(band["4+"])
      else None
  }

  // ---------------------------------------------------------------------------
  // Lines and selections of them
  // ---------------------------------------------------------------------------

  function Normalise(entry: Entry, input: Input): Result<Line, MoneyError> {
    var monthly := ToMonthlyPence(entry.amount, entry.frequency);
    if monthly.Err? then Err(monthly.error)
    else
      var trigger := if entry.section == Expenditure
                     then TriggerFigureFor(input.triggers, entry.category, input.household) else None;
      Ok(Line(entry, monthly.value, trigger, trigger.Some? && monthly.value > trigger.value))
  }

  function NormaliseAll(entries: seq<Entry>, input: Input): (r: Result<seq<Line>, MoneyError>)
    ensures r.Ok? ==> |r.value| == |entries|
    ensures r.Ok? ==> forall i :: 0 <= i < |entries| ==> Normalise(entries[i], input) == Ok(r.value[i])
    ensures r.Err? <==> exists i :: 0 <= i < |entries| && Normalise(entries[i], input).Err?
  {
    if |entries| == 0 then Ok([])
    else
      var init := NormaliseAll(entries[..|entries| - 1], input);
      if init.Err? then init
      else
        var last := Normalise(entries[|entries| - 1], input);
        if last.Err? then Err(last.error) else Ok(init.value + [last.value])
  }

  datatype Selector = BySection(section: Section) | ByCategory(category: string)

  /** Grouping by category looks at expenditure only. */
  predicate Selected(line: Line, which: Selector) {
    match which
    case BySection(section) => line.entry.section == section
    case ByCategory(category) => line.entry.section == Expenditure && line.entry.category == category
  }

  function Select(lines: seq<Line>, which: Selector): seq<Line> {
    if |lines| == 0 then []
    else
      var last := lines[|lines| - 1];
      Select(lines[..|lines| - 1], which) + if Selected(last, which) then [last] else []
  }

  function Amounts(lines: seq<Line>): (amounts: seq<int>)
    ensures |amounts| == |lines|
  {
    seq(|lines|, i requires 0 <= i < |lines| => lines[i].monthly)
  }

  function Total(lines: seq<Line>, which: Selector): int { Sum(Amounts(Select(lines, which))) }

  lemma TotalStep(lines: seq<Line>, which: Selector)
    requires |lines| > 0
    ensures var last := lines[|lines| - 1];
      Total(lines, which) == Total(lines[..|lines| - 1], which) + if Selected(last, which) then last.monthly else 0
  {
    var last := lines[|lines| - 1];
    var init := Select(lines[..|lines| - 1], which);
    if Selected(last, which) {
      assert Amounts(init + [last]) == Amounts(init) + [last.monthly];
      SumAppend(Amounts(init), [last.monthly]);
      assert Sum([last.monthly]) == last.monthly;
    } else {
      assert init + [] == init;
    }
  }

  /** Expenditure categories, in the order in which they first appear. */
  function Categories(lines: seq<Line>): seq<string> {
    if |lines| == 0 then []
    else
      var init := Categories(lines[..|lines| - 1]);
      var last := lines[|lines| - 1].entry;
      if last.section == Expenditure && last.category !in init then init + [last.category] else init
  }

  predicate Distinct(names: seq<string>) { forall i, j :: 0 <= i < j < |names| ==> names[i] != names[j] }

  function FirstExplanation(lines: seq<Line>, blank: string -> bool): Option<string> {
    if |lines| == 0 then None
    else if lines[0].entry.explanation.Some? && !blank(lines[0].entry.explanation.value) then lines[0].entry.explanation
    else FirstExplanation(lines[1..], blank)
  }

  function ExceedanceOf(lines: seq<Line>, category: string, trigger: int, blank: string -> bool): Exceedance {
    var total := Total(lines, ByCategory(category));
    var explanation := FirstExplanation(Select(lines, ByCategory(category)), blank);
    Exceedance(category, total, trigger, total - trigger, explanation, explanation.Some?)
  }

  predicate OverTrigger(lines: seq<Line>, category: string, input: Input) {
    var trigger := TriggerFigureFor(input.triggers, category, input.household);
    trigger.Some? && Total(lines, ByCategory(category)) > trigger.value
  }

  function Exceedances(lines: seq<Line>, categories: seq<string>, input: Input): seq<Exceedance> {
    if |categories| == 0 then []
    else
      var last := categories[|categories| - 1];
      Exceedances(lines, categories[..|categories| - 1], input)
      + if OverTrigger(lines, last, input)
        then [ExceedanceOf(lines, last, TriggerFigureFor(input.triggers, last, input.household).value, input.blank)]
        else []
  }

  predicate AllSafe(lines: seq<Line>) { forall i :: 0 <= i < |lines| ==> SafePence(lines[i].monthly) }

  function TotalsOf(lines: seq<Line>): Totals {
    var income, expenditure := Total(lines, BySection(Income)), Total(lines, BySection(Expenditure));
    Totals(income, expenditure, income - expenditure, Total(lines, BySection(Asset)))
  }

  function Build(input: Input): Result<Built, MoneyError> {
    var lines := NormaliseAll(input.entries, input);
    if lines.Err? || !AllSafe(lines.value) then Err(OutsideSafeRange)
    else Ok(Built(lines.value, TotalsOf(lines.value), Exceedances(lines.value, Categories(lines.value), input)))
  }

  // ---------------------------------------------------------------------------
  // The program
  // ---------------------------------------------------------------------------

  method SumPence(values: seq<int>) returns (r: Result<int, MoneyError>)
    ensures r.Ok? <==> forall i :: 0 <= i < |values| ==> SafePence(values[i])
    ensures r == if r.Ok? then Ok(Sum(values)) else Err(OutsideSafeRange)
  {
    var total := 0;
    for i := 0 to |values|
      invariant total == Sum(values[..i])
      invariant forall j :: 0 <= j < i ==> SafePence(values[j])
    {
      if !SafePence(values[i]) { return Err(OutsideSafeRange); }
      assert values[..i + 1][..i] == values[..i];
      total := total + values[i];
    }
    assert values[..|values|] == values;
    return Ok(total);
  }

  /** The lines of each category, with the order in which the categories were met. */
  method GroupByCategory(lines: seq<Line>) returns (byCategory: map<string, seq<Line>>, order: seq<string>)
    ensures order == Categories(lines)
    ensures forall c :: c in byCategory <==> c in order
    ensures forall c :: c in byCategory ==> byCategory[c] == Select(lines, ByCategory(c))
  {
    byCategory, order := map[], [];
    for i := 0 to |lines|
      invariant order == Categories(lines[..i])
      invariant forall c :: c in byCategory <==> c in order
      invariant forall c :: c in byCategory ==> byCategory[c] == Select(lines[..i], ByCategory(c))
    {
      assert lines[..i + 1][..i] == lines[..i];
      ghost var before := byCategory;
      var line := lines[i];
      var category := line.entry.category;
      NotYetMet(lines[..i], category);
      if line.entry.section == Expenditure {
        if category in byCategory {
          byCategory := byCategory[category := byCategory[category] + [line]];
        } else {
          byCategory := byCategory[category := [line]];
          order := order + [category];
        }
      }
    }
    assert lines[..|lines|] == lines;
  }

  lemma {:induction false} NotYetMet(lines: seq<Line>, category: string)
    ensures category in Categories(lines) <==> Select(lines, ByCategory(category)) != []
  {
    if |lines| > 0 { NotYetMet(lines[..|lines| - 1], category); }
  }

  lemma {:induction false} SelectIn(lines: seq<Line>, which: Selector)
    ensures forall line :: line in Select(lines, which) <==> line in lines && Selected(line, which)
  {
    if |lines| > 0 {
      SelectIn(lines[..|lines| - 1], which);
      assert lines == lines[..|lines| - 1] + [lines[|lines| - 1]];
    }
  }

  method FindExceedances(lines: seq<Line>, byCategory: map<string, seq<Line>>, order: seq<string>, input: Input)
    returns (r: Result<seq<Exceedance>, MoneyError>)
    requires forall c :: c in order ==> c in byCategory && byCategory[c] == Select(lines, ByCategory(c))
    ensures AllSafe(lines) ==> r == Ok(Exceedances(lines, order, input))
    ensures r.Err? ==> r == Err(OutsideSafeRange)
  {
    var exceedances := [];
    for i := 0 to |order|
      invariant exceedances == Exceedances(lines, order[..i], input)
    {
      assert order[..i + 1][..i] == order[..i];
      var category := order[i];
      var group := byCategory[category];
      var trigger := TriggerFigureFor(input.triggers, category, input.household);
      if trigger.Some? {
        var total := SumPence(Amounts(group));
        UnsafeAmount(lines, ByCategory(category));
        if total.Err? { return Err(OutsideSafeRange); }
        if total.value > trigger.value {
          var explanation := FirstExplanation(group, input.blank);
          exceedances := exceedances + [Exceedance(
            category, total.value, trigger.value, total.value - trigger.value, explanation, explanation.Some?)];
        }
      }
    }
    assert order[..|order|] == order;
    return Ok(exceedances);
  }

  method TotalSections(lines: seq<Line>) returns (r: Result<Totals, MoneyError>)
    ensures r == if AllSafe(lines) then Ok(TotalsOf(lines)) else Err(OutsideSafeRange)
  {
    var income := SumPence(Amounts(Select(lines, BySection(Income))));
    var expenditure := SumPence(Amounts(Select(lines, BySection(Expenditure))));
    var assets := SumPence(Amounts(Select(lines, BySection(Asset))));
    UnsafeAmount(lines, BySection(Income));
    UnsafeAmount(lines, BySection(Expenditure));
    UnsafeAmount(lines, BySection(Asset));
    if income.Err? || expenditure.Err? || assets.Err? { return Err(OutsideSafeRange); }
    EverySectionSafe(lines);
    return Ok(Totals(income.value, expenditure.value, income.value - expenditure.value, assets.value));
  }

  method BuildStatement(input: Input) returns (r: Result<Built, MoneyError>)
    ensures r == Build(input)
  {
    var normalised := NormaliseAll(input.entries, input);
    if normalised.Err? { return Err(OutsideSafeRange); }
    var lines := normalised.value;
    var byCategory, order := GroupByCategory(lines);
    var exceedances := FindExceedances(lines, byCategory, order, input);
    if exceedances.Err? { return Err(OutsideSafeRange); }
    var totals := TotalSections(lines);
    if totals.Err? { return Err(OutsideSafeRange); }
    return Ok(Built(lines, totals.value, exceedances.value));
  }

  /** A sum fails exactly when a selected amount is out of range. */
  lemma UnsafeAmount(lines: seq<Line>, which: Selector)
    ensures var amounts := Amounts(Select(lines, which));
      (forall i :: 0 <= i < |amounts| ==> SafePence(amounts[i])) <==> AllSafe(Select(lines, which))
    ensures AllSafe(lines) ==> AllSafe(Select(lines, which))
  {
    var chosen := Select(lines, which);
    forall i | 0 <= i < |chosen| ensures Amounts(chosen)[i] == chosen[i].monthly {}
  }

  lemma EverySectionSafe(lines: seq<Line>)
    requires AllSafe(Select(lines, BySection(Income)))
    requires AllSafe(Select(lines, BySection(Expenditure)))
    requires AllSafe(Select(lines, BySection(Asset)))
    ensures AllSafe(lines)
  {
    forall i | 0 <= i < |lines| ensures SafePence(lines[i].monthly) {
      var chosen := Select(lines, BySection(lines[i].entry.section));
      SelectIn(lines, BySection(lines[i].entry.section));
      assert lines[i] in lines && lines[i] in chosen;
      var k :| 0 <= k < |chosen| && chosen[k] == lines[i];
      assert AllSafe(chosen);
    }
  }

  // ---------------------------------------------------------------------------
  // What the comparison with the guidelines means
  // ---------------------------------------------------------------------------

  predicate FirstAt(lines: seq<Line>, category: string, i: nat) {
    i < |lines| && Selected(lines[i], ByCategory(category))
    && forall j :: 0 <= j < i ==> !Selected(lines[j], ByCategory(category))
  }

  /** The categories are those of the expenditure lines, each once. */
  lemma {:induction false} CategoriesMeaning(lines: seq<Line>)
    ensures Distinct(Categories(lines))
    ensures forall c :: c in Categories(lines) <==> exists i :: 0 <= i < |lines| && Selected(lines[i], ByCategory(c))
  {
    if |lines| > 0 {
      CategoriesMeaning(lines[..|lines| - 1]);
      var last := |lines| - 1;
      forall c ensures c in Categories(lines) <==>
        exists i :: 0 <= i < |lines| && Selected(lines[i], ByCategory(c))
      {
        if i :| 0 <= i < last && Selected(lines[i], ByCategory(c)) {
          assert Selected(lines[..last][i], ByCategory(c));
        }
      }
    }
  }

  lemma FirstWithin(lines: seq<Line>, category: string, i: nat)
    requires |lines| > 0 && category in Categories(lines[..|lines| - 1]) && FirstAt(lines, category, i)
    ensures FirstAt(lines[..|lines| - 1], category, i)
  {
    CategoriesMeaning(lines[..|lines| - 1]);
  }

  /** They stand in the order of their first lines. */
  lemma {:induction false} CategoriesInOrder(lines: seq<Line>, a: nat, b: nat, i: nat, j: nat)
    requires a < b < |Categories(lines)|
    requires FirstAt(lines, Categories(lines)[a], i) && FirstAt(lines, Categories(lines)[b], j)
    ensures i < j
  {
    var last := |lines| - 1;
    var init := Categories(lines[..last]);
    CategoriesMeaning(lines[..last]);
    assert init[a] in init;
    FirstWithin(lines, init[a], i);
    if b < |init| {
      assert init[b] in init;
      FirstWithin(lines, init[b], j);
      CategoriesInOrder(lines[..last], a, b, i, j);
    }
  }

  function CategoryTotals(lines: seq<Line>, names: seq<string>): (totals: seq<int>)
    ensures |totals| == |names|
  {
    seq(|names|, i requires 0 <= i < |names| => Total(lines, ByCategory(names[i])))
  }

  /** The groups lose no expenditure and count none twice. */
  lemma {:induction false} GroupsSumToExpenditure(lines: seq<Line>)
    ensures Sum(CategoryTotals(lines, Categories(lines))) == Total(lines, BySection(Expenditure))
  {
    if |lines| > 0 {
      var last := lines[|lines| - 1];
      var init := lines[..|lines| - 1];
      GroupsSumToExpenditure(init);
      TotalStep(lines, BySection(Expenditure));
      assert lines == init + [last];
      OneGroupGrows(init, last);
    }
  }

  lemma GroupsAfter(init: seq<Line>, last: Line, names: seq<string>)
    ensures forall k :: 0 <= k < |names| ==>
      CategoryTotals(init + [last], names)[k] ==
      CategoryTotals(init, names)[k] + if Selected(last, ByCategory(names[k])) then last.monthly else 0
  {
    forall k | 0 <= k < |names|
      ensures CategoryTotals(init + [last], names)[k] ==
              CategoryTotals(init, names)[k] + if Selected(last, ByCategory(names[k])) then last.monthly else 0
    {
      TotalStep(init + [last], ByCategory(names[k]));
      assert (init + [last])[..|init|] == init;
    }
  }

  lemma KnownGroupGrows(before: seq<int>, after: seq<int>, at: nat, d: int)
    requires |before| == |after| && at < |before|
    requires forall k :: 0 <= k < |before| ==> after[k] == if k == at then before[k] + d else before[k]
    ensures Sum(after) == Sum(before) + d
  {
    var updated := before[at := before[at] + d];
    assert forall k :: 0 <= k < |before| ==> after[k] == updated[k];
    assert after == updated;
    SumUpdate(before, at, before[at] + d);
  }

  lemma NewGroup(init: seq<Line>, last: Line, names: seq<string>)
    requires names == Categories(init) && last.entry.section == Expenditure && last.entry.category !in names
    ensures CategoryTotals(init + [last], names + [last.entry.category]) == CategoryTotals(init, names) + [last.monthly]
  {
    var c := last.entry.category;
    GroupsAfter(init, last, names);
    NotYetMet(init, c);
    TotalStep(init + [last], ByCategory(c));
    assert (init + [last])[..|init|] == init;
    assert Total(init, ByCategory(c)) == 0;
  }

  lemma OneGroupGrows(init: seq<Line>, last: Line)
    ensures Sum(CategoryTotals(init + [last], Categories(init + [last]))) == Sum(CategoryTotals(init, Categories(init)))
              + if last.entry.section == Expenditure then last.monthly else 0
  {
    var names, c := Categories(init), last.entry.category;
    var before, after := CategoryTotals(init, names), CategoryTotals(init + [last], names);
    assert (init + [last])[..|init|] == init;
    GroupsAfter(init, last, names);
    if last.entry.section != Expenditure {
      assert after == before;
    } else if c in names {
      CategoriesMeaning(init);
      var at :| 0 <= at < |names| && names[at] == c;
      KnownGroupGrows(before, after, at, last.monthly);
    } else {
      NewGroup(init, last, names);
      SumAppend(before, [last.monthly]);
      assert Sum([last.monthly]) == last.monthly;
    }
  }

  // ---------------------------------------------------------------------------
  // Exceedances
  // ---------------------------------------------------------------------------

  function Names(exceedances: seq<Exceedance>): (names: seq<string>)
    ensures |names| == |exceedances|
  {
    seq(|exceedances|, i requires 0 <= i < |exceedances| => exceedances[i].category)
  }

  function OverTriggerOnly(lines: seq<Line>, categories: seq<string>, input: Input): seq<string> {
    if |categories| == 0 then []
    else
      var last := categories[|categories| - 1];
      OverTriggerOnly(lines, categories[..|categories| - 1], input) + if OverTrigger(lines, last, input) then [last] else []
  }

  /** Reported are the categories over their figure, in the order given, each with its own total. */
  lemma {:induction false} ExceedancesAre(lines: seq<Line>, categories: seq<string>, input: Input)
    ensures var r := Exceedances(lines, categories, input);
      Names(r) == OverTriggerOnly(lines, categories, input)
      && forall i :: 0 <= i < |r| ==>
           OverTrigger(lines, r[i].category, input)
           && Some(r[i].trigger) == TriggerFigureFor(input.triggers, r[i].category, input.household)
           && r[i].amount == Total(lines, ByCategory(r[i].category)) && r[i].overBy == r[i].amount - r[i].trigger > 0
  {
    if |categories| > 0 {
      ExceedancesAre(lines, categories[..|categories| - 1], input);
    }
  }

  lemma {:induction false} OverTriggerMembers(lines: seq<Line>, categories: seq<string>, input: Input)
    ensures forall c :: c in OverTriggerOnly(lines, categories, input) <==> c in categories && OverTrigger(lines, c, input)
    ensures Distinct(categories) ==> Distinct(OverTriggerOnly(lines, categories, input))
  {
    if |categories| > 0 {
      OverTriggerMembers(lines, categories[..|categories| - 1], input);
      assert categories == categories[..|categories| - 1] + [categories[|categories| - 1]];
    }
  }

  predicate Reported(built: Built, category: string) { category in Names(built.exceedances) }

  /** A category is reported exactly when it has expenditure and its total is over its figure; never twice. */
  lemma ReportedIff(input: Input, category: string)
    requires Build(input).Ok?
    ensures var built := Build(input).value;
      Distinct(Names(built.exceedances))
      && (Reported(built, category) <==>
           (exists i :: 0 <= i < |built.lines| && Selected(built.lines[i], ByCategory(category)))
           && OverTrigger(built.lines, category, input))
  {
    var built := Build(input).value;
    CategoriesMeaning(built.lines);
    ExceedancesAre(built.lines, Categories(built.lines), input);
    OverTriggerMembers(built.lines, Categories(built.lines), input);
  }

  lemma {:induction false} ExplanationMeaning(lines: seq<Line>, blank: string -> bool)
    ensures FirstExplanation(lines, blank).Some? <==>
      exists i :: 0 <= i < |lines| && lines[i].entry.explanation.Some? && !blank(lines[i].entry.explanation.value)
  {
    if |lines| > 0 { ExplanationMeaning(lines[1..], blank); }
  }

  lemma {:induction false} AmountWithin(lines: seq<Line>, which: Selector, i: nat)
    requires i < |lines| && Selected(lines[i], which)
    requires forall j :: 0 <= j < |lines| ==> lines[j].monthly >= 0
    ensures Total(lines, which) >= lines[i].monthly
  {
    var init := lines[..|lines| - 1];
    TotalStep(lines, which);
    if i < |init| { AmountWithin(init, which, i); } else { TotalNonNegative(init, which); }
  }

  lemma {:induction false} TotalNonNegative(lines: seq<Line>, which: Selector)
    requires forall j :: 0 <= j < |lines| ==> lines[j].monthly >= 0
    ensures Total(lines, which) >= 0
  {
    if |lines| > 0 {
      TotalStep(lines, which);
      TotalNonNegative(lines[..|lines| - 1], which);
    }
  }

  lemma LineNotNegative(input: Input, j: nat)
    requires Build(input).Ok? && j < |input.entries| && input.entries[j].amount >= 0
    ensures Build(input).value.lines[j].monthly >= 0
  {
    var entry := input.entries[j];
    assert Normalise(entry, input) == Ok(Build(input).value.lines[j]);
    NatProduct(entry.amount, PerYear(entry.frequency));
  }

  /** A flagged line is expenditure of its category, over the figure of that category. */
  lemma FlaggedLine(input: Input, i: nat)
    requires Build(input).Ok? && i < |input.entries| && Build(input).value.lines[i].exceeds
    ensures var line, category := Build(input).value.lines[i], input.entries[i].category;
      && Selected(line, ByCategory(category))
      && TriggerFigureFor(input.triggers, category, input.household).Some?
      && line.monthly > TriggerFigureFor(input.triggers, category, input.household).value
  {
    assert Normalise(input.entries[i], input) == Ok(Build(input).value.lines[i]);
  }

  /** With no negative amount, a line flagged on its own always has its category reported. */
  lemma FlaggedIsReported(input: Input, i: nat)
    requires Build(input).Ok? && i < |input.entries| && Build(input).value.lines[i].exceeds
    requires forall j :: 0 <= j < |input.entries| ==> input.entries[j].amount >= 0
    ensures Reported(Build(input).value, input.entries[i].category)
  {
    var built := Build(input).value;
    var category := input.entries[i].category;
    forall j | 0 <= j < |input.entries| ensures built.lines[j].monthly >= 0 { LineNotNegative(input, j); }
    FlaggedLine(input, i);
    AmountWithin(built.lines, ByCategory(category), i);
    ReportedIff(input, category);
  }

  lemma TotalOfTwo(a: Line, b: Line, which: Selector)
    requires Selected(a, which) && Selected(b, which)
    ensures Total([a, b], which) == a.monthly + b.monthly
  {
    TotalStep([a, b], which);
    assert [a, b][..1] == [a];
    TotalStep([a], which);
    assert [a][..0] == [];
    assert Total([], which) == 0;
  }

  lemma WholeAmounts()
    ensures ToMonthlyPence(100, Monthly) == Ok(100) && ToMonthlyPence(-60, Monthly) == Ok(-60)
  {
    RoundAwayUnique(100 * 12, 12, 100);
    RoundAwayUnique(-60 * 12, 12, -60);
  }

  lemma NormalisesTwo(x: Entry, y: Entry, input: Input, a: Line, b: Line)
    requires Normalise(x, input) == Ok(a) && Normalise(y, input) == Ok(b)
    ensures NormaliseAll([x, y], input) == Ok([a, b])
  {
    var r := NormaliseAll([x, y], input);
    assert forall k :: 0 <= k < 2 ==> Normalise([x, y][k], input).Ok?;
    assert r.value[0] == a && r.value[1] == b;
    assert r.value == [a, b];
  }

  /** With a negative amount it need not be: the group as a whole is within its figure. */
  lemma NegativeHidesFlaggedLine(category: string, blank: string -> bool)
    ensures exists input: Input, i: nat ::
      Build(input).Ok? && i < |input.entries| && Build(input).value.lines[i].exceeds
      && !Reported(Build(input).value, input.entries[i].category)
  {
    var triggers := Some(Triggers("v", map[category := map["1" := 50]]));
    var high := Entry(Expenditure, category, 100, Monthly, None, "");
    var back := Entry(Expenditure, category, -60, Monthly, None, "");
    var input := Input([high, back], Household(1, 0), triggers, blank);
    var a, b := Line(high, 100, Some(50), true), Line(back, -60, Some(50), false);
    WholeAmounts();
    assert Normalise(high, input) == Ok(a) && Normalise(back, input) == Ok(b);
    NormalisesTwo(high, back, input, a, b);
    TotalOfTwo(a, b, ByCategory(category));
    ReportedIff(input, category);
    assert !Reported(Build(input).value, input.entries[0].category);
  }
}

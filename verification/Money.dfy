/** Money as integer pence (packages/core/src/money.ts). */
module Money {
  // Arithmetic is exact: shares and conversions are rationals, rounded where the program rounds.

  import opened Prelude

  const MAX_SAFE := 9_007_199_254_740_991

  predicate SafePence(n: int) { -MAX_SAFE <= n <= MAX_SAFE }

  datatype MoneyError = OutsideSafeRange | WeightsNotPositive | Unreadable

  // ---------------------------------------------------------------------------
  // Rounding and frequencies
  // ---------------------------------------------------------------------------

  function RoundHalfUp(num: int, den: nat): int
    requires den > 0
  {
    (2 * num + den) / (2 * den)
  }

  /** `roundHalfAwayFromZero(num / den)`. */
  function RoundAway(num: int, den: nat): int
    requires den > 0
  {
    if num < 0 then -RoundHalfUp(-num, den) else RoundHalfUp(num, den)
  }

  /** The nearest integer, and of two equally near the one further from zero. */
  lemma RoundAwayNearest(num: int, den: nat)
    requires den > 0
    ensures var r := RoundAway(num, den);
      && -(den as int) <= 2 * (num - r * den) <= den
      && (2 * (num - r * den) == den ==> num < 0)
      && (2 * (num - r * den) == -(den as int) ==> num > 0)
  {
    var n := if num < 0 then -num else num;
    var q := RoundHalfUp(n, den);
    assert 2 * n + den == q * (2 * den) + (2 * n + den) % (2 * den);
    assert q * (2 * den) == 2 * (q * den);
    assert num < 0 ==> RoundAway(num, den) * den == -(q * den);
  }

  /** Only one integer lies strictly within half a unit. */
  lemma RoundAwayUnique(num: int, den: nat, r: int)
    requires den > 0 && -(den as int) < 2 * (num - r * den) < den
    ensures RoundAway(num, den) == r
  {
    RoundAwayNearest(num, den);
    var q := RoundAway(num, den);
    var rd, qd := r * den, q * den;
    assert -(den as int) < rd - qd < den;
    assert rd - qd == (r - q) * den;
    if r != q { MultipleApart(r - q, den); }
  }

  datatype Frequency = Weekly | Fortnightly | FourWeekly | Monthly | Quarterly | Annually | OneOff

  function PerYear(f: Frequency): nat {
    match f
    case Weekly => 52
    case Fortnightly => 26
    case FourWeekly => 13
    case Monthly => 12
    case Quarterly => 4
    case Annually => 1
    case OneOff => 0
  }

  function ToMonthlyPence(amount: int, f: Frequency): Result<int, MoneyError> {
    if !SafePence(amount) then Err(OutsideSafeRange)
    else Ok(if PerYear(f) == 0 then 0 else RoundAway(amount * PerYear(f), 12))
  }

  function FromMonthlyPence(monthly: int, f: Frequency): Result<int, MoneyError> {
    if !SafePence(monthly) then Err(OutsideSafeRange)
    else Ok(if PerYear(f) == 0 then 0 else RoundAway(monthly * 12, PerYear(f)))
  }

  /** Paid at least monthly: what was entered comes back from its monthly figure. */
  lemma EnteredSurvives(amount: int, f: Frequency)
    requires PerYear(f) >= 12 && SafePence(amount)
    requires SafePence(ToMonthlyPence(amount, f).value)
    ensures FromMonthlyPence(ToMonthlyPence(amount, f).value, f) == Ok(amount)
  {
    var p := PerYear(f);
    var m := ToMonthlyPence(amount, f).value;
    RoundAwayNearest(amount * p, 12);
    if p == 12 {
      assert m == amount by { RoundAwayUnique(amount * 12, 12, amount); }
      RoundAwayUnique(m * 12, 12, amount);
    } else {
      RoundAwayUnique(m * 12, p, amount);
    }
  }

  /** Paid at most monthly: a monthly figure comes back from the amount it stands for. */
  lemma MonthlySurvives(monthly: int, f: Frequency)
    requires 1 <= PerYear(f) <= 12 && SafePence(monthly)
    requires SafePence(FromMonthlyPence(monthly, f).value)
    ensures ToMonthlyPence(FromMonthlyPence(monthly, f).value, f) == Ok(monthly)
  {
    var p := PerYear(f);
    var a := FromMonthlyPence(monthly, f).value;
    RoundAwayNearest(monthly * 12, p);
    if p == 12 {
      assert a == monthly by { RoundAwayUnique(monthly * 12, 12, monthly); }
    }
    RoundAwayUnique(a * p, 12, monthly);
  }

  lemma QuarterSurvivesIff(amount: int)
    ensures RoundAway(RoundAway(amount * 4, 12) * 12, 4) == amount <==> amount % 3 == 0
  {
    var m := RoundAway(amount * 4, 12);
    RoundAwayNearest(amount * 4, 12);
    RoundAwayUnique(m * 12, 4, m * 3);
  }

  lemma YearSurvivesIff(amount: int)
    ensures RoundAway(RoundAway(amount * 1, 12) * 12, 1) == amount <==> amount % 12 == 0
  {
    var m := RoundAway(amount * 1, 12);
    RoundAwayNearest(amount * 1, 12);
    RoundAwayUnique(m * 12, 1, m * 12);
  }

  /** The amounts that are a whole number of pence a month, or are paid at least monthly. */
  predicate WholeMonthly(amount: int, f: Frequency) {
    match f
    case Quarterly => amount % 3 == 0
    case Annually => amount % 12 == 0
    case OneOff => amount == 0
    case _ => true
  }

  /** An entered amount comes back from its monthly figure exactly when that loses no fraction of a penny. */
  lemma EnteredSurvivesIff(amount: int, f: Frequency)
    requires SafePence(amount)
    ensures var monthly := ToMonthlyPence(amount, f).value;
      FromMonthlyPence(monthly, f) == Ok(amount) <==> SafePence(monthly) && WholeMonthly(amount, f)
  {
    if SafePence(ToMonthlyPence(amount, f).value) && PerYear(f) >= 12 { EnteredSurvives(amount, f); }
    QuarterSurvivesIff(amount);
    YearSurvivesIff(amount);
  }

  /** What is paid in a year comes to this figure a month exactly when it is within half a penny a month of it. */
  lemma ComesToIff(paid: nat, monthly: int)
    ensures RoundAway(paid, 12) == monthly <==> -6 <= paid - monthly * 12 < 6
  {
    RoundAwayNearest(paid, 12);
  }

  lemma PaidNearly(monthly: nat, p: nat)
    requires p > 0
    ensures var paid := RoundAway(monthly * 12, p) * p;
      paid >= 0 && -(p as int) <= 2 * (monthly * 12 - paid) <= p
  {
    RoundAwayNearest(monthly * 12, p);
    NatProduct(RoundAway(monthly * 12, p), p);
  }

  /** Which monthly figures an amount paid this often can come to, by what they leave over from thirteen pence. */
  predicate Payable(monthly: int, f: Frequency) {
    var rest := (if monthly < 0 then -monthly else monthly) % 13;
    match f
    case Weekly => rest == 0 || rest == 4 || rest == 9
    case Fortnightly => rest == 0 || rest == 2 || rest == 4 || rest == 7 || rest == 9 || rest == 11
    case FourWeekly => rest != 6
    case OneOff => monthly == 0
    case _ => true
  }

  lemma WeeklyPayable(monthly: nat, a: int)
    requires -52 <= 2 * (monthly * 12 - a * 52) <= 52
    ensures -6 <= a * 52 - monthly * 12 < 6 <==> Payable(monthly, Weekly)
  {
    var rest := monthly % 13;
    var b := a - 3 * (monthly / 13);
    assert a * 52 - monthly * 12 == b * 52 - rest * 12;
  }

  lemma FortnightlyPayable(monthly: nat, a: int)
    requires -26 <= 2 * (monthly * 12 - a * 26) <= 26
    ensures -6 <= a * 26 - monthly * 12 < 6 <==> Payable(monthly, Fortnightly)
  {
    var rest := monthly % 13;
    var b := a - 6 * (monthly / 13);
    assert a * 26 - monthly * 12 == b * 26 - rest * 12;
    assert b == rest / 2;
  }

  lemma FourWeeklyPayable(monthly: nat, a: int)
    requires -13 <= 2 * (monthly * 12 - a * 13) <= 13
    ensures -6 <= a * 13 - monthly * 12 < 6 <==> Payable(monthly, FourWeekly)
  {
    var rest := monthly % 13;
    var b := a - 12 * (monthly / 13);
    assert a * 13 - monthly * 12 == b * 13 - rest * 12;
  }

  lemma PayableFigures(monthly: nat, f: Frequency)
    requires PerYear(f) > 12
    ensures RoundAway(RoundAway(monthly * 12, PerYear(f)) * PerYear(f), 12) == monthly <==> Payable(monthly, f)
  {
    var a := RoundAway(monthly * 12, PerYear(f));
    PaidNearly(monthly, PerYear(f));
    ComesToIff(a * PerYear(f), monthly);
    match f
    case Weekly => WeeklyPayable(monthly, a);
    case Fortnightly => FortnightlyPayable(monthly, a);
    case FourWeekly => FourWeeklyPayable(monthly, a);
  }

  /** Rounding is odd, so a negative figure fares as its opposite. */
  lemma OppositeFares(monthly: int, p: nat)
    requires p > 0
    ensures RoundAway(RoundAway(-monthly * 12, p) * p, 12) == -RoundAway(RoundAway(monthly * 12, p) * p, 12)
  {
    var a := RoundAway(monthly * 12, p);
    assert -monthly * 12 == -(monthly * 12);
    assert RoundAway(-monthly * 12, p) == -a;
    assert -a * p == -(a * p);
  }

  /** A monthly figure comes back from the amount it is converted to exactly when it is payable. */
  lemma MonthlySurvivesIff(monthly: int, f: Frequency)
    requires SafePence(monthly)
    ensures var amount := FromMonthlyPence(monthly, f).value;
      ToMonthlyPence(amount, f) == Ok(monthly) <==> SafePence(amount) && Payable(monthly, f)
  {
    if 1 <= PerYear(f) <= 12 {
      if SafePence(FromMonthlyPence(monthly, f).value) { MonthlySurvives(monthly, f); }
    } else if PerYear(f) > 12 {
      if monthly >= 0 {
        PayableFigures(monthly, f);
      } else {
        OppositeFares(-monthly, PerYear(f));
        PayableFigures(-monthly, f);
      }
    }
  }

  /** Paid at least monthly, the payable figures are those that some entered amount comes to. */
  lemma PayableIff(monthly: int, f: Frequency)
    requires PerYear(f) >= 12 && SafePence(monthly) && SafePence(FromMonthlyPence(monthly, f).value)
    ensures Payable(monthly, f) <==> exists amount :: SafePence(amount) && ToMonthlyPence(amount, f) == Ok(monthly)
  {
    MonthlySurvivesIff(monthly, f);
    if amount :| SafePence(amount) && ToMonthlyPence(amount, f) == Ok(monthly) { EnteredSurvives(amount, f); }
  }

  // ---------------------------------------------------------------------------
  // Distribution
  // ---------------------------------------------------------------------------

  function RealSum(xs: seq<real>): real {
    if |xs| == 0 then 0.0 else RealSum(xs[..|xs| - 1]) + xs[|xs| - 1]
  }

  function Share(total: real, weight: real, weightTotal: real): real
    requires weightTotal > 0.0
  {
    total * weight / weightTotal
  }

  /** The exact shares of `total`. */
  function Shares(total: int, weights: seq<real>): seq<real>
    requires RealSum(weights) > 0.0
  {
    seq(|weights|, i requires 0 <= i < |weights| => Share(total as real, weights[i], RealSum(weights)))
  }

  function Fraction(x: real): (f: real)
    ensures 0.0 <= f < 1.0
  {
    x - x.Floor as real
  }

  function Floors(shares: seq<real>): seq<int> {
    seq(|shares|, i requires 0 <= i < |shares| => shares[i].Floor)
  }

  /** Whether `i` is ahead of `j` in the queue for spare pennies. */
  predicate Ahead(shares: seq<real>, i: int, j: int)
    requires 0 <= i < |shares| && 0 <= j < |shares|
  {
    Fraction(shares[i]) > Fraction(shares[j]) || (Fraction(shares[i]) == Fraction(shares[j]) && i < j)
  }

  /**
   * The largest-remainder split: everything is its share rounded down or one
   * more, the parts sum to the total, and whoever got a spare penny was ahead
   * of whoever did not.
   */
  ghost predicate LargestRemainder(total: int, shares: seq<real>, out: seq<int>) {
    && |out| == |shares|
    && Sum(out) == total
    && (forall i :: 0 <= i < |out| ==> out[i] == shares[i].Floor || out[i] == shares[i].Floor + 1)
    && forall i, j :: 0 <= i < |out| && 0 <= j < |out| && out[i] == shares[i].Floor + 1 && out[j] == shares[j].Floor ==>
         Ahead(shares, i, j)
  }

  predicate Contains(order: seq<nat>, i: int) { exists a :: 0 <= a < |order| && order[a] == i }

  /** An ordering of all positions from the front of the queue to the back. */
  ghost predicate QueueOrder(shares: seq<real>, n: nat, order: seq<nat>)
    requires n <= |shares|
  {
    && |order| == n
    && (forall i :: 0 <= i < n ==> Contains(order, i))
    && (forall a :: 0 <= a < n ==> order[a] < n)
    && forall a, b :: 0 <= a < b < n ==> Ahead(shares, order[a], order[b])
  }

  method SortByRemainder(shares: seq<real>) returns (order: seq<nat>)
    ensures QueueOrder(shares, |shares|, order)
  {
    order := [];
    for n := 0 to |shares|
      invariant QueueOrder(shares, n, order)
    {
      var at := 0;
      while at < n && Ahead(shares, order[at], n)
        invariant 0 <= at <= n
        invariant forall a :: 0 <= a < at ==> Ahead(shares, order[a], n)
      {
        at := at + 1;
      }
      ghost var before := order;
      order := order[..at] + [n] + order[at..];
      Inserted(shares, n, before, at, order);
    }
  }

  lemma Inserted(shares: seq<real>, n: nat, before: seq<nat>, at: nat, after: seq<nat>)
    requires n < |shares| && QueueOrder(shares, n, before) && at <= n
    requires forall a :: 0 <= a < at ==> Ahead(shares, before[a], n)
    requires at < n ==> !Ahead(shares, before[at], n)
    requires after == before[..at] + [n] + before[at..]
    ensures QueueOrder(shares, n + 1, after)
  {
    forall i | 0 <= i < n + 1 ensures Contains(after, i) {
      if i < n {
        assert Contains(before, i);
        var a :| 0 <= a < n && before[a] == i;
        assert after[if a < at then a else a + 1] == i;
      } else {
        assert after[at] == n;
      }
    }
    forall a, b | 0 <= a < b < n + 1 ensures Ahead(shares, after[a], after[b]) {
      InsertedOrder(shares, n, before, at, after, a, b);
    }
  }

  lemma InsertedOrder(shares: seq<real>, n: nat, before: seq<nat>, at: nat, after: seq<nat>, a: nat, b: nat)
    requires n < |shares| && QueueOrder(shares, n, before) && at <= n && a < b < n + 1
    requires forall x :: 0 <= x < at ==> Ahead(shares, before[x], n)
    requires at < n ==> !Ahead(shares, before[at], n)
    requires after == before[..at] + [n] + before[at..]
    ensures Ahead(shares, after[a], after[b])
  {
    if b < at || a > at {
      var x, y := if a < at then a else a - 1, if b < at then b else b - 1;
      assert after[a] == before[x] && after[b] == before[y];
    } else if b == at {
      assert after[a] == before[a];
    } else if a < at {
      assert after[a] == before[a] && after[b] == before[b - 1];
    } else {
      assert after[b] == before[b - 1];
      assert b - 1 > at ==> Ahead(shares, before[at], before[b - 1]);
    }
  }

  function Bumped(floors: seq<int>, order: seq<nat>): seq<int> {
    seq(|floors|, i requires 0 <= i < |floors| => floors[i] + if Contains(order, i) then 1 else 0)
  }

  lemma {:induction false} SumUpdate(xs: seq<int>, i: nat, x: int)
    requires i < |xs|
    ensures Sum(xs[i := x]) == Sum(xs) - xs[i] + x
  {
    var last := |xs| - 1;
    if i < last {
      SumUpdate(xs[..last], i, x);
      assert xs[i := x][..last] == xs[..last][i := x];
    } else {
      assert xs[i := x][..last] == xs[..last];
    }
  }

  /** `distributePence`. */
  method DistributePence(total: int, weights: seq<real>) returns (result: Result<seq<int>, MoneyError>)
    ensures !SafePence(total) ==> result == Err(OutsideSafeRange)
    ensures SafePence(total) && |weights| == 0 ==> result == Ok([])
    ensures SafePence(total) && |weights| > 0 && RealSum(weights) <= 0.0 ==> result == Err(WeightsNotPositive)
    ensures SafePence(total) && RealSum(weights) > 0.0 ==>
      result.Ok? && LargestRemainder(total, Shares(total, weights), result.value)
  {
    if !SafePence(total) { return Err(OutsideSafeRange); }
    if |weights| == 0 { return Ok([]); }
    var weightTotal := RealSum(weights);
    if weightTotal <= 0.0 { return Err(WeightsNotPositive); }
    var shares := Shares(total, weights);
    var floors := Floors(shares);
    var remainder := total - Sum(floors);
    RemainderBounds(total, weights);
    var order := SortByRemainder(shares);
    var out := Bump(shares, floors, order, remainder);
    BumpedIsLargestRemainder(total, shares, order, remainder);
    result := Ok(out);
  }

  /** One penny each to the front of the queue. */
  method Bump(ghost shares: seq<real>, floors: seq<int>, order: seq<nat>, spare: nat) returns (out: seq<int>)
    requires |floors| == |shares| && QueueOrder(shares, |shares|, order) && spare <= |order|
    ensures out == Bumped(floors, order[..spare])
  {
    out := floors;
    var remainder: int := spare;
    var k := 0;
    assert out == Bumped(floors, order[..0]);
    while k < |order| && remainder > 0
      invariant 0 <= k <= |order| && remainder == spare - k && remainder >= 0
      invariant out == Bumped(floors, order[..k])
    {
      NotEarlier(shares, order, k);
      out := out[order[k] := out[order[k]] + 1];
      remainder := remainder - 1;
      k := k + 1;
    }
  }

  lemma NotEarlier(shares: seq<real>, order: seq<nat>, k: nat)
    requires QueueOrder(shares, |shares|, order) && k < |order|
    ensures !Contains(order[..k], order[k])
  {
    forall a | 0 <= a < k ensures order[a] != order[k] {
      assert Ahead(shares, order[a], order[k]);
    }
  }

  lemma {:induction false} BumpedSum(shares: seq<real>, floors: seq<int>, order: seq<nat>, k: nat)
    requires |floors| == |shares| && QueueOrder(shares, |shares|, order) && k <= |order|
    ensures Sum(Bumped(floors, order[..k])) == Sum(floors) + k
  {
    if k == 0 {
      assert Bumped(floors, order[..0]) == floors;
    } else {
      BumpedSum(shares, floors, order, k - 1);
      NotEarlier(shares, order, k - 1);
      var out := Bumped(floors, order[..k - 1]);
      var i := order[k - 1];
      SumUpdate(out, i, out[i] + 1);
      assert Bumped(floors, order[..k]) == out[i := out[i] + 1];
    }
  }

  /** Bumping the front of the queue gives the largest-remainder split. */
  lemma BumpedIsLargestRemainder(total: int, shares: seq<real>, order: seq<nat>, k: nat)
    requires QueueOrder(shares, |shares|, order) && k <= |order|
    requires Sum(Floors(shares)) + k == total
    ensures LargestRemainder(total, shares, Bumped(Floors(shares), order[..k]))
  {
    BumpedSum(shares, Floors(shares), order, k);
    assert forall b :: 0 <= b < k ==> order[..k][b] == order[b];
    forall i, j | 0 <= i < |shares| && 0 <= j < |shares| && Contains(order[..k], i) && !Contains(order[..k], j)
      ensures Ahead(shares, i, j)
    {
      var a :| 0 <= a < k && order[..k][a] == i;
      assert Contains(order, j);
      var b :| 0 <= b < |order| && order[b] == j;
    }
  }

  // ---------------------------------------------------------------------------
  // Sums of shares
  // ---------------------------------------------------------------------------

  lemma ShareAdds(total: real, a: real, b: real, w: real)
    requires w > 0.0
    ensures Share(total, a, w) + Share(total, b, w) == Share(total, a + b, w)
    ensures Share(total, 0.0, w) == 0.0 && Share(total, w, w) == total
  {
    assert total * a + total * b == total * (a + b);
  }

  lemma {:induction false} ScaledSum(total: real, weights: seq<real>, w: real, scaled: seq<real>)
    requires w > 0.0 && |scaled| == |weights|
    requires forall i :: 0 <= i < |weights| ==> scaled[i] == Share(total, weights[i], w)
    ensures RealSum(scaled) == Share(total, RealSum(weights), w)
  {
    if |weights| > 0 {
      var n := |weights| - 1;
      ScaledSum(total, weights[..n], w, scaled[..n]);
      ShareAdds(total, RealSum(weights[..n]), weights[n], w);
    } else {
      ShareAdds(total, 0.0, 0.0, w);
    }
  }

  lemma SharesSum(total: int, weights: seq<real>)
    requires RealSum(weights) > 0.0
    ensures RealSum(Shares(total, weights)) == total as real
  {
    var w := RealSum(weights);
    ScaledSum(total as real, weights, w, Shares(total, weights));
    ShareAdds(total as real, w, 0.0, w);
  }

  /** Sums compare as their terms do; strictly where every term does and there is one. */
  lemma {:induction false} SumsCompare(xs: seq<real>, ys: seq<int>)
    requires |xs| == |ys| && forall i :: 0 <= i < |xs| ==> ys[i] as real <= xs[i]
    ensures Sum(ys) as real <= RealSum(xs)
    ensures |xs| > 0 && (forall i :: 0 <= i < |xs| ==> xs[i] < ys[i] as real + 1.0) ==> RealSum(xs) < Sum(ys) as real + |xs| as real
  {
    if |xs| > 0 {
      SumsCompare(xs[..|xs| - 1], ys[..|xs| - 1]);
    }
  }

  /** The spare pennies are fewer than the parts. */
  lemma RemainderBounds(total: int, weights: seq<real>)
    requires RealSum(weights) > 0.0 && |weights| > 0
    ensures 0 <= total - Sum(Floors(Shares(total, weights))) < |weights|
  {
    SharesSum(total, weights);
    SumsCompare(Shares(total, weights), Floors(Shares(total, weights)));
  }

  // ---------------------------------------------------------------------------
  // What a largest-remainder split guarantees
  // ---------------------------------------------------------------------------

  lemma {:induction false} SumsDominate(xs: seq<real>, ys: seq<int>)
    requires |xs| == |ys| && forall i :: 0 <= i < |xs| ==> xs[i] <= ys[i] as real
    ensures RealSum(xs) <= Sum(ys) as real
  {
    if |xs| > 0 { SumsDominate(xs[..|xs| - 1], ys[..|xs| - 1]); }
  }

  /** A whole share gets exactly itself: spare pennies go only to shares that were rounded. */
  lemma WholeShareExact(total: int, shares: seq<real>, out: seq<int>, b: nat)
    requires RealSum(shares) == total as real && LargestRemainder(total, shares, out)
    requires b < |shares| && Fraction(shares[b]) == 0.0
    ensures out[b] as real == shares[b]
  {
    if out[b] == shares[b].Floor + 1 {
      // Everyone without a spare penny is behind b, so has a whole share too.
      forall i | 0 <= i < |shares| ensures shares[i] <= out[b := out[b] - 1][i] as real {
        if i != b && out[i] == shares[i].Floor { assert Ahead(shares, b, i); }
      }
      SumUpdate(out, b, out[b] - 1);
      SumsDominate(shares, out[b := out[b] - 1]);
    }
  }

  lemma ZeroWeightGetsNothing(total: int, weights: seq<real>, out: seq<int>, i: nat)
    requires RealSum(weights) > 0.0 && i < |weights| && weights[i] == 0.0
    requires LargestRemainder(total, Shares(total, weights), out)
    ensures out[i] == 0
  {
    SharesSum(total, weights);
    ShareAdds(total as real, 0.0, 0.0, RealSum(weights));
    WholeShareExact(total, Shares(total, weights), out, i);
  }

  lemma ShareMonotone(total: real, w: real, x: real, y: real)
    requires w > 0.0 && x > y && total >= 0.0
    ensures total > 0.0 ==> Share(total, x, w) > Share(total, y, w)
    ensures total == 0.0 ==> Share(total, x, w) == 0.0 && Share(total, y, w) == 0.0
  {
    if total > 0.0 {
      ShareAdds(total, x - y, y, w);
      SharePositive(total, x - y, w);
    } else {
      assert total * x == 0.0 && total * y == 0.0;
    }
  }

  lemma SharePositive(total: real, x: real, w: real)
    requires w > 0.0 && x > 0.0 && total > 0.0
    ensures Share(total, x, w) > 0.0
  {
    assert total * x > 0.0;
  }

  lemma SharesOrdered(total: int, weights: seq<real>, i: nat, j: nat)
    requires RealSum(weights) > 0.0 && total >= 0
    requires i < |weights| && j < |weights| && weights[i] > weights[j]
    ensures var shares := Shares(total, weights);
      shares[i] > shares[j] || (shares[i] == 0.0 && shares[j] == 0.0)
  {
    ShareMonotone(total as real, RealSum(weights), weights[i], weights[j]);
  }

  /** Of a non-negative total, a strictly larger weight never gets less. */
  lemma LargerWeightNotLess(total: int, weights: seq<real>, out: seq<int>, i: nat, j: nat)
    requires RealSum(weights) > 0.0 && total >= 0
    requires LargestRemainder(total, Shares(total, weights), out)
    requires i < |weights| && j < |weights| && weights[i] > weights[j]
    ensures out[i] >= out[j]
  {
    SharesSum(total, weights);
    SharesOrdered(total, weights, i, j);
    LargerShareNotLess(total, Shares(total, weights), out, i, j);
  }

  lemma LargerShareNotLess(total: int, shares: seq<real>, out: seq<int>, i: nat, j: nat)
    requires RealSum(shares) == total as real && LargestRemainder(total, shares, out)
    requires i < |shares| && j < |shares|
    requires shares[i] > shares[j] || (shares[i] == 0.0 && shares[j] == 0.0)
    ensures out[i] >= out[j]
  {
    if shares[i] == 0.0 && shares[j] == 0.0 {
      WholeShareExact(total, shares, out, i);
      WholeShareExact(total, shares, out, j);
    } else if out[j] == shares[j].Floor + 1 && out[i] == shares[i].Floor {
      assert Ahead(shares, j, i);
    }
  }

  function Abs(x: real): real { if x < 0.0 then -x else x }

  function Deviations(shares: seq<real>, parts: seq<int>): seq<real>
    requires |shares| == |parts|
  {
    seq(|shares|, i requires 0 <= i < |shares| => Abs(parts[i] as real - shares[i]))
  }

  /** How far a split is from the exact shares in all. */
  function Deviation(shares: seq<real>, parts: seq<int>): real
    requires |shares| == |parts|
  {
    RealSum(Deviations(shares, parts))
  }

  /** Moving from `x` to `y` costs at least `price` for every penny moved. */
  ghost predicate CostsAtLeast(share: real, x: int, y: int, price: real) {
    Abs(y as real - share) >= Abs(x as real - share) + price * (y - x) as real
  }

  lemma PriceLaw(t: real, f: real, d: real)
    requires 0.0 <= t <= 1.0 && 0.0 <= f < 1.0
    ensures f >= t && d >= 0.0 ==> d >= (1.0 - 2.0 * t) * d
    ensures f >= t && d <= -1.0 ==> -d - 2.0 + 2.0 * f >= (1.0 - 2.0 * t) * d
    ensures f <= t && d <= 0.0 ==> -d >= (1.0 - 2.0 * t) * d
    ensures f <= t && d >= 1.0 ==> d - 2.0 * f >= (1.0 - 2.0 * t) * d
  {
    var td := t * d;
    assert (1.0 - 2.0 * t) * d == d - 2.0 * td;
    if d >= 0.0 { Product(t, d); }
    if d <= 0.0 { Product(1.0 - t, -d); assert (1.0 - t) * -d == -d + td; }
    if d >= 1.0 { Product(t, d - 1.0); assert t * (d - 1.0) == td - t; }
    if d <= -1.0 { Product(1.0 - t, -d - 1.0); assert (1.0 - t) * (-d - 1.0) == -d - 1.0 + td + t; }
  }

  lemma Product(a: real, b: real)
    requires a >= 0.0 && b >= 0.0
    ensures a * b >= 0.0
  {
  }

  /**
   * The price of a penny: with `t` between the fractions of those who got one
   * and those who did not, moving away from `x` never gains at price 1 - 2t.
   */
  lemma PennyPrice(share: real, x: int, y: int, t: real)
    requires 0.0 <= t <= 1.0
    requires (x == share.Floor + 1 && Fraction(share) >= t) || (x == share.Floor && Fraction(share) <= t)
    ensures CostsAtLeast(share, x, y, 1.0 - 2.0 * t)
  {
    var d := (y - x) as real;
    PriceLaw(t, Fraction(share), d);
    assert y as real - share == d + (x as real - share);
  }

  function Cost(price: real, pennies: int): real { price * pennies as real }

  /** What every part pays for the pennies it gains in moving from `x` to `y`. */
  function Prices(x: seq<int>, y: seq<int>, price: real): seq<real>
    requires |x| == |y|
  {
    seq(|x|, i requires 0 <= i < |x| => Cost(price, y[i] - x[i]))
  }

  lemma {:induction false} RealSumAtLeast(a: seq<real>, b: seq<real>, c: seq<real>)
    requires |a| == |b| == |c| && forall i :: 0 <= i < |a| ==> a[i] >= b[i] + c[i]
    ensures RealSum(a) >= RealSum(b) + RealSum(c)
  {
    if |a| > 0 { RealSumAtLeast(a[..|a| - 1], b[..|a| - 1], c[..|a| - 1]); }
  }

  lemma {:induction false} PricesAdd(x: seq<int>, y: seq<int>, price: real)
    requires |x| == |y|
    ensures RealSum(Prices(x, y, price)) == price * (Sum(y) - Sum(x)) as real
  {
    if |x| > 0 {
      var n := |x| - 1;
      PricesAdd(x[..n], y[..n], price);
      assert Prices(x, y, price)[..n] == Prices(x[..n], y[..n], price);
      PriceAdds(price, Sum(y[..n]) - Sum(x[..n]), y[n] - x[n], Sum(y) - Sum(x));
    }
  }

  lemma PriceAdds(price: real, a: int, b: int, c: int)
    requires c == a + b
    ensures price * c as real == price * a as real + price * b as real
  {
    assert c as real == a as real + b as real;
  }

  lemma DeviationsCompare(shares: seq<real>, x: seq<int>, y: seq<int>, price: real)
    requires |shares| == |x| == |y|
    requires forall i :: 0 <= i < |x| ==> CostsAtLeast(shares[i], x[i], y[i], price)
    ensures Deviation(shares, y) >= Deviation(shares, x) + price * (Sum(y) - Sum(x)) as real
  {
    RealSumAtLeast(Deviations(shares, y), Deviations(shares, x), Prices(x, y, price));
    PricesAdd(x, y, price);
  }

  /** The smallest fraction among those that got a spare penny. */
  lemma {:induction false} Threshold(total: int, shares: seq<real>, out: seq<int>, n: nat) returns (t: real)
    requires LargestRemainder(total, shares, out) && n <= |out|
    ensures 0.0 <= t <= 1.0
    ensures forall i :: 0 <= i < n && out[i] == shares[i].Floor + 1 ==> Fraction(shares[i]) >= t
    ensures t == 1.0 || exists i :: 0 <= i < n && out[i] == shares[i].Floor + 1 && Fraction(shares[i]) == t
  {
    if n == 0 { return 1.0; }
    t := Threshold(total, shares, out, n - 1);
    if out[n - 1] == shares[n - 1].Floor + 1 && Fraction(shares[n - 1]) < t { t := Fraction(shares[n - 1]); }
  }

  /** No other split of the total into whole pence is closer to the exact shares. */
  lemma LeastDeviation(total: int, shares: seq<real>, out: seq<int>, other: seq<int>)
    requires LargestRemainder(total, shares, out)
    requires |other| == |shares| && Sum(other) == total
    ensures Deviation(shares, out) <= Deviation(shares, other)
  {
    var t := Threshold(total, shares, out, |out|);
    forall i | 0 <= i < |out| ensures CostsAtLeast(shares[i], out[i], other[i], 1.0 - 2.0 * t) {
      if out[i] == shares[i].Floor && t != 1.0 {
        var b :| 0 <= b < |out| && out[b] == shares[b].Floor + 1 && Fraction(shares[b]) == t;
        assert Ahead(shares, b, i);
      }
      PennyPrice(shares[i], out[i], other[i], t);
    }
    DeviationsCompare(shares, out, other, 1.0 - 2.0 * t);
  }

  /** The split is determined: there is only one. */
  lemma SplitUnique(total: int, shares: seq<real>, x: seq<int>, y: seq<int>)
    requires LargestRemainder(total, shares, x) && LargestRemainder(total, shares, y)
    ensures x == y
  {
    forall i | 0 <= i < |x| ensures x[i] <= y[i] && y[i] <= x[i] {
      NotAbove(total, shares, x, y, i);
      NotAbove(total, shares, y, x, i);
    }
  }

  /** If one split gave `i` a spare penny and the other did not, it would be larger in all. */
  lemma NotAbove(total: int, shares: seq<real>, x: seq<int>, y: seq<int>, i: nat)
    requires LargestRemainder(total, shares, x) && LargestRemainder(total, shares, y) && i < |x|
    ensures x[i] <= y[i]
  {
    if x[i] > y[i] {
      forall j | 0 <= j < |x| ensures x[j] >= y[j] {
        assert x[j] == shares[j].Floor ==> Ahead(shares, i, j);
        assert y[j] == shares[j].Floor + 1 ==> Ahead(shares, j, i);
      }
      SumStrict(x, y, i);
    }
  }

  lemma {:induction false} SumStrict(x: seq<int>, y: seq<int>, i: nat)
    requires |x| == |y| && i < |x| && x[i] > y[i] && forall j :: 0 <= j < |x| ==> x[j] >= y[j]
    ensures Sum(x) > Sum(y)
  {
    var n := |x| - 1;
    if i < n { SumStrict(x[..n], y[..n], i); } else { SumAtLeast(x[..n], y[..n]); }
  }

  lemma {:induction false} SumAtLeast(x: seq<int>, y: seq<int>)
    requires |x| == |y| && forall j :: 0 <= j < |x| ==> x[j] >= y[j]
    ensures Sum(x) >= Sum(y)
  {
    if |x| > 0 { SumAtLeast(x[..|x| - 1], y[..|x| - 1]); }
  }
}

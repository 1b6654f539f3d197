/**
 * Printing and reading amounts (`formatPence` and `parsePounds`,
 * packages/core/src/money.ts).
 */
module MoneyText {
  import opened Prelude
  import opened Money

  // ---------------------------------------------------------------------------
  // Printing
  // ---------------------------------------------------------------------------

  function Digit(n: nat): char
    requires n < 10
  {
    ['0', '1', '2', '3', '4', '5', '6', '7', '8', '9'][n]
  }

  function Digits(n: nat): string {
    if n < 10 then [Digit(n)] else Digits(n / 10) + [Digit(n % 10)]
  }

  /** Thousands separators, as the British English locale writes them. */
  function Grouped(digits: string): string {
    if |digits| <= 3 then digits else Grouped(digits[..|digits| - 3]) + "," + digits[|digits| - 3..]
  }

  /** Pounds and pence without a sign. */
  function Body(n: nat): string {
    Printed(Digits(n / 100), TwoDigits(n % 100))
  }

  function Printed(whole: string, fraction: string): string {
    ['£'] + Grouped(whole) + ['.'] + fraction
  }

  function TwoDigits(n: nat): string
    requires n < 100
  {
    [Digit(n / 10), Digit(n % 10)]
  }

  function FormatPence(amount: int, showSign: bool): string {
    var magnitude := if amount < 0 then -amount else amount;
    var body := Body(magnitude);
    if amount < 0 then ['-'] + body else if showSign then ['+'] + body else body
  }

  // ---------------------------------------------------------------------------
  // Reading
  // ---------------------------------------------------------------------------

  predicate IsSpace(c: char) {
    || '\U{0009}' <= c <= '\U{000D}' || c == ' ' || c == '\U{00A0}' || c == '\U{1680}'
    || '\U{2000}' <= c <= '\U{200A}' || c == '\U{2028}' || c == '\U{2029}' || c == '\U{202F}'
    || c == '\U{205F}' || c == '\U{3000}' || c == '\U{FEFF}'
  }

  predicate Ignored(c: char) { c == '£' || c == ',' || IsSpace(c) }

  function Cleaned(s: string): string {
    if |s| == 0 then [] else if Ignored(s[0]) then Cleaned(s[1..]) else [s[0]] + Cleaned(s[1..])
  }

  predicate IsDigit(c: char) { '0' <= c <= '9' }

  predicate AllDigits(s: string) { forall c :: c in s ==> IsDigit(c) }

  function DigitValue(c: char): nat
    requires IsDigit(c)
  {
    c as int - '0' as int
  }

  function Number(s: string): nat
    requires AllDigits(s)
  {
    if |s| == 0 then 0 else 10 * Number(s[..|s| - 1]) + DigitValue(s[|s| - 1])
  }

  /** Position of the first full stop, or the length. */
  function Stop(s: string): (n: nat)
    ensures n <= |s|
  {
    if |s| == 0 || s[0] == '.' then 0 else 1 + Stop(s[1..])
  }

  lemma {:induction false} StopIsStop(s: string)
    ensures Stop(s) < |s| ==> s[Stop(s)] == '.'
  {
    if |s| > 0 && s[0] != '.' { StopIsStop(s[1..]); }
  }

  function Hundredths(fraction: string): nat
    requires AllDigits(fraction)
  {
    if |fraction| == 1 then 10 * Number(fraction) else Number(fraction)
  }

  function ReadUnsigned(s: string): Option<nat> {
    var stop := Stop(s);
    if stop == 0 || !AllDigits(s[..stop]) then None
    else if stop == |s| then Some(100 * Number(s))
    else
      var fraction := s[stop + 1..];
      if 1 <= |fraction| <= 2 && AllDigits(fraction) then Some(100 * Number(s[..stop]) + Hundredths(fraction)) else None
  }

  function ReadSigned(cleaned: string): Result<int, MoneyError> {
    var negative := |cleaned| > 0 && cleaned[0] == '-';
    var read := ReadUnsigned(if negative then cleaned[1..] else cleaned);
    if read.None? then Err(Unreadable) else Ok(if negative then -(read.value as int) else read.value)
  }

  function ParsePounds(input: string): Result<int, MoneyError> {
    ReadSigned(Cleaned(input))
  }

  // ---------------------------------------------------------------------------
  // What is read
  // ---------------------------------------------------------------------------

  /** Digits, then optionally a full stop and one or two digits. */
  predicate WellWritten(whole: string, fraction: string) {
    |whole| > 0 && AllDigits(whole) && AllDigits(fraction) && |fraction| <= 2
  }

  function Written(whole: string, fraction: string): string {
    whole + if |fraction| == 0 then "" else "." + fraction
  }

  function Worth(whole: string, fraction: string): nat
    requires WellWritten(whole, fraction)
  {
    100 * Number(whole) + Hundredths(fraction)
  }

  lemma {:induction false} StopAt(s: string, n: nat)
    requires n <= |s| && (forall i :: 0 <= i < n ==> s[i] != '.') && (n < |s| ==> s[n] == '.')
    ensures Stop(s) == n
  {
    if n > 0 { StopAt(s[1..], n - 1); }
  }

  lemma ReadsWritten(whole: string, fraction: string)
    requires WellWritten(whole, fraction)
    ensures ReadUnsigned(Written(whole, fraction)) == Some(Worth(whole, fraction))
  {
    var s := Written(whole, fraction);
    forall i | 0 <= i < |whole| ensures s[i] != '.' { assert whole[i] in whole; }
    StopAt(s, |whole|);
    assert s[..|whole|] == whole;
    if |fraction| > 0 { assert s[|whole| + 1..] == fraction; } else { assert s == whole; }
  }

  lemma ReadWasWritten(s: string) returns (whole: string, fraction: string)
    requires ReadUnsigned(s).Some?
    ensures WellWritten(whole, fraction) && s == Written(whole, fraction)
  {
    var stop := Stop(s);
    StopIsStop(s);
    whole, fraction := s[..stop], if stop == |s| then "" else s[stop + 1..];
    assert s == Written(whole, fraction);
  }

  /** Reading accepts exactly the texts the grammar describes, with their value. */
  lemma ReadsAmounts(s: string, pence: nat)
    ensures ReadUnsigned(s) == Some(pence) <==>
      exists whole, fraction :: WellWritten(whole, fraction) && s == Written(whole, fraction) &&
                                pence == Worth(whole, fraction)
  {
    if ReadUnsigned(s) == Some(pence) {
      var whole, fraction := ReadWasWritten(s);
      ReadsWritten(whole, fraction);
    }
    if whole, fraction :| WellWritten(whole, fraction) && s == Written(whole, fraction) &&
                          pence == Worth(whole, fraction) {
      ReadsWritten(whole, fraction);
    }
  }

  // ---------------------------------------------------------------------------
  // The round trip
  // ---------------------------------------------------------------------------

  lemma {:induction false} CleanedAppend(a: string, b: string)
    ensures Cleaned(a + b) == Cleaned(a) + Cleaned(b)
  {
    if |a| == 0 {
      assert a + b == b;
    } else {
      assert (a + b)[1..] == a[1..] + b;
      CleanedAppend(a[1..], b);
    }
  }

  lemma {:induction false} CleanedDigits(s: string)
    requires AllDigits(s)
    ensures Cleaned(s) == s
  {
    if |s| > 0 {
      assert s[0] in s;
      CleanedDigits(s[1..]);
    }
  }

  lemma {:induction false} CleanedGrouped(digits: string)
    requires AllDigits(digits)
    ensures Cleaned(Grouped(digits)) == digits
  {
    if |digits| <= 3 {
      CleanedDigits(digits);
    } else {
      var front, back := digits[..|digits| - 3], digits[|digits| - 3..];
      CleanedGrouped(front);
      CleanedDigits(back);
      CleanedAppend(Grouped(front), ",");
      CleanedAppend(Grouped(front) + ",", back);
      assert Cleaned(",") == "" by { assert ","[..0] == ""; }
      assert front + back == digits;
    }
  }

  lemma {:induction false} DigitsRead(n: nat)
    ensures AllDigits(Digits(n)) && |Digits(n)| > 0 && Number(Digits(n)) == n
  {
    if n >= 10 {
      DigitsRead(n / 10);
      assert Digits(n)[..|Digits(n)| - 1] == Digits(n / 10);
    } else {
      assert Digits(n)[..0] == "";
    }
  }

  lemma TwoDigitsRead(n: nat)
    requires n < 100
    ensures AllDigits(TwoDigits(n)) && Number(TwoDigits(n)) == n
  {
    var s := [Digit(n / 10), Digit(n % 10)];
    assert s[..1] == [s[0]] && [s[0]][..0] == "";
    assert Number([s[0]]) == n / 10;
  }

  lemma CleanedFour(a: string, b: string, c: string, d: string)
    ensures Cleaned(a + b + c + d) == Cleaned(a) + Cleaned(b) + Cleaned(c) + Cleaned(d)
  {
    CleanedAppend(a, b);
    CleanedAppend(a + b, c);
    CleanedAppend(a + b + c, d);
  }

  lemma CleanedPieces(pound: char, grouped: string, dot: char, whole: string, fraction: string)
    requires Ignored(pound) && Cleaned(grouped) == whole
    requires !Ignored(dot) && Cleaned(fraction) == fraction
    ensures Cleaned([pound] + grouped + [dot] + fraction) == whole + ([dot] + fraction)
  {
    CleanedFour([pound], grouped, [dot], fraction);
  }

  lemma CleanedParts(whole: string, fraction: string)
    requires AllDigits(whole) && AllDigits(fraction) && |fraction| > 0
    ensures Cleaned(Printed(whole, fraction)) == Written(whole, fraction)
  {
    CleanedGrouped(whole);
    CleanedDigits(fraction);
    CleanedPieces('£', Grouped(whole), '.', whole, fraction);
  }

  /** The printed magnitude, cleaned, is an amount worth the magnitude. */
  lemma PrintedAmount(n: nat)
    ensures ReadUnsigned(Cleaned(Body(n))) == Some(n)
    ensures |Cleaned(Body(n))| > 0 && IsDigit(Cleaned(Body(n))[0])
  {
    PrintedDigits(n / 100, n % 100);
  }

  lemma PrintedDigits(pounds: nat, rest: nat)
    requires rest < 100
    ensures var body := Cleaned(Printed(Digits(pounds), TwoDigits(rest)));
      ReadUnsigned(body) == Some(100 * pounds + rest) && |body| > 0 && IsDigit(body[0])
  {
    DigitsRead(pounds);
    TwoDigitsRead(rest);
    PrintedParts(Digits(pounds), TwoDigits(rest), pounds, rest);
  }

  lemma PrintedParts(whole: string, fraction: string, pounds: nat, rest: nat)
    requires |whole| > 0 && AllDigits(whole) && AllDigits(fraction) && |fraction| == 2
    requires Number(whole) == pounds && Number(fraction) == rest
    ensures var body := Cleaned(Printed(whole, fraction));
      ReadUnsigned(body) == Some(100 * pounds + rest) && |body| > 0 && IsDigit(body[0])
  {
    CleanedParts(whole, fraction);
    ReadsWritten(whole, fraction);
    assert Written(whole, fraction)[0] == whole[0] && whole[0] in whole;
  }

  /** Every amount, printed, reads back as itself; a forced plus sign is what cannot be read. */
  lemma FormatRoundTrip(amount: int, showSign: bool)
    ensures ParsePounds(FormatPence(amount, showSign)) == Ok(amount) <==> !showSign || amount < 0
    ensures showSign && amount >= 0 ==> ParsePounds(FormatPence(amount, showSign)) == Err(Unreadable)
  {
    var n := if amount < 0 then -amount else amount;
    if amount < 0 { MinusRoundTrip(n); } else if showSign { PlusFails(Body(n)); } else { PlainRoundTrip(n); }
  }

  lemma PlainRoundTrip(n: nat)
    ensures ParsePounds(Body(n)) == Ok(n)
  {
    PrintedAmount(n);
  }

  lemma MinusRoundTrip(n: nat)
    ensures ParsePounds(['-'] + Body(n)) == Ok(-(n as int))
  {
    PrintedAmount(n);
    MinusRead(Cleaned(Body(n)), n);
  }

  lemma PlusFails(body: string)
    ensures ParsePounds(['+'] + body) == Err(Unreadable)
  {
    SignNotRead(Cleaned(body));
  }

  lemma MinusRead(s: string, n: nat)
    requires ReadUnsigned(s) == Some(n)
    ensures ReadSigned(['-'] + s) == Ok(-(n as int))
  {
    assert (['-'] + s)[1..] == s;
  }

  lemma SignNotRead(s: string)
    ensures ReadSigned(['+'] + s) == Err(Unreadable)
  {
    var signed := ['+'] + s;
    var stop := Stop(signed);
    if stop > 0 { assert signed[..stop][0] == '+' && signed[..stop][0] in signed[..stop]; }
  }

  /** No two amounts print alike. */
  lemma FormatInjective(a: int, b: int)
    requires FormatPence(a, false) == FormatPence(b, false)
    ensures a == b
  {
    FormatRoundTrip(a, false);
    FormatRoundTrip(b, false);
  }
}

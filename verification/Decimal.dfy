/** Decimal numbers as the reports print them and as the parsers read them. */
module Decimal {
  import opened Status
  import opened Codec

  predicate IsDigit(c: char) { '0' <= c <= '9' }

  predicate AllDigits(s: string) {
    forall i :: 0 <= i < |s| ==> IsDigit(s[i])
  }

  function DigitsValue(s: string): nat
    requires AllDigits(s)
  {
    if s == "" then 0 else 10 * DigitsValue(s[..|s| - 1]) + (s[|s| - 1] as int - '0' as int)
  }

  // --- whole numbers ---------------------------------------------------------------

  function Digit(n: nat): char
    requires n < 10
  {
    '0' + n as char
  }

  /** "%u" */
  function PrintNat(n: nat): string {
    if n < 10 then [Digit(n)] else PrintNat(n / 10) + [Digit(n % 10)]
  }

  /** "%d" */
  function PrintInt(n: int): string {
    if n < 0 then "-" + PrintNat(-n) else PrintNat(n)
  }

  lemma {:induction false} PrintNatReadsBack(n: nat)
    ensures PrintNat(n) != "" && AllDigits(PrintNat(n)) && DigitsValue(PrintNat(n)) == n
  {
    if n >= 10 {
      PrintNatReadsBack(n / 10);
      AppendDigit(PrintNat(n / 10), n % 10);
    } else {
      AppendDigit("", n);
      assert "" + [Digit(n)] == [Digit(n)];
    }
  }

  lemma AppendDigit(s: string, d: nat)
    requires AllDigits(s) && d < 10
    ensures AllDigits(s + [Digit(d)]) && DigitsValue(s + [Digit(d)]) == 10 * DigitsValue(s) + d
  {
    assert (s + [Digit(d)])[..|s|] == s;
  }

  function Pow10(k: nat): (p: nat)
    ensures p > 0
  {
    if k == 0 then 1 else 10 * Pow10(k - 1)
  }

  lemma {:induction false} PrintNatLength(n: nat, k: nat)
    requires k >= 1 && n < Pow10(k)
    ensures |PrintNat(n)| <= k
    decreases k
  {
    if n < 10 {
    } else {
      assert k > 1 by { assert Pow10(1) == 10; }
      PrintNatLength(n / 10, k - 1);
    }
  }

  // --- two decimals ------------------------------------------------------------------

  /** Hundredths in the magnitude of x, rounded to the nearest, ties to even. */
  function Cents(x: real): nat {
    var y := (if x < 0.0 then -x else x) * 100.0;
    var below := y.Floor;
    var fraction := y - below as real;
    if fraction < 0.5 || (fraction == 0.5 && below % 2 == 0) then below else below + 1
  }

  function LastTwo(c: nat): string {
    [Digit(c / 10 % 10), Digit(c % 10)]
  }

  /** "%.2f" */
  function PrintFixed(x: real): string {
    var c := Cents(x);
    (if x < 0.0 then "-" else "") + PrintNat(c / 100) + "." + LastTwo(c)
  }

  /** The number that "%.2f" leaves of x. */
  function FixedValue(x: real): real {
    if x < 0.0 then -(Cents(x) as real / 100.0) else Cents(x) as real / 100.0
  }

  /** Two decimals always, halves to the even neighbour, a sign for negative numbers only. */
  lemma PrintedExamples()
    ensures PrintFixed(12.375) == "12.38" && PrintFixed(-0.125) == "-0.12" && PrintFixed(7.0) == "7.00"
    ensures PrintFixed(-45.6) == "-45.60"
  {
    assert Cents(12.375) == 1238 && Cents(-0.125) == 12 && Cents(7.0) == 700 && Cents(-45.6) == 4560;
    assert PrintNat(12) == PrintNat(1) + [Digit(2)] == "12" && PrintNat(0) == "0" && PrintNat(7) == "7";
    assert PrintNat(45) == PrintNat(4) + [Digit(5)] == "45";
    assert LastTwo(1238) == "38" && LastTwo(12) == "12" && LastTwo(700) == "00" && LastTwo(4560) == "60";
  }

  lemma FixedError(x: real)
    ensures -0.005 <= FixedValue(x) - x <= 0.005
  {
  }

  lemma FixedIsExact(x: real)
    requires IsInteger(x * 100.0)
    ensures FixedValue(x) == x
  {
    var n := (x * 100.0).Floor;
    assert x * 100.0 == n as real;
    var y := (if x < 0.0 then -x else x) * 100.0;
    var m := if x < 0.0 then -n else n;
    assert y == m as real;
    FloorIs(y, m);
  }

  lemma GridIsExact(s: SensorFrame)
    requires s.OnGrid()
    ensures FixedValue(s.rpm) == s.rpm
    ensures FixedValue(s.temperature) == s.temperature
    ensures FixedValue(s.oilPressure) == s.oilPressure
  {
    var r, t := s.rpm.Floor, (s.temperature * 10.0).Floor;
    FloorIs(s.rpm * 100.0, 100 * r);
    FloorIs(s.temperature * 100.0, 10 * t);
    FixedIsExact(s.rpm);
    FixedIsExact(s.temperature);
    FixedIsExact(s.oilPressure);
  }

  lemma FixedInPercent(x: real)
    requires 0.0 <= x <= 100.0
    ensures 0.0 <= FixedValue(x) <= 100.0 && Cents(x) <= 10000
  {
    assert x * 100.0 <= 10000.0;
  }

  // --- reading numbers from the front of a text -----------------------------------------

  datatype Scanned<T> = Scanned(value: T, rest: string)

  function LeadingDigits(s: string): (d: string)
    ensures AllDigits(d) && d <= s
  {
    if s != "" && IsDigit(s[0]) then [s[0]] + LeadingDigits(s[1..]) else ""
  }

  lemma {:induction false} LeadingDigitsAre(d: string, rest: string)
    requires AllDigits(d) && (rest == "" || !IsDigit(rest[0]))
    ensures LeadingDigits(d + rest) == d && (d + rest)[|d|..] == rest
  {
    if d == "" {
      assert d + rest == rest;
    } else {
      assert (d + rest)[1..] == d[1..] + rest;
      LeadingDigitsAre(d[1..], rest);
    }
  }

  /** strtoul on a text that starts with neither white space nor a sign. */
  function ReadNat(s: string): Option<Scanned<nat>> {
    var d := LeadingDigits(s);
    if d == "" then None else Some(Scanned(DigitsValue(d), s[|d|..]))
  }

  /** strtol, likewise, with an optional sign. */
  function ReadInt(s: string): Option<Scanned<int>> {
    var signed := s != "" && (s[0] == '-' || s[0] == '+');
    match ReadNat(if signed then s[1..] else s)
    case None => None
    case Some(read) => Some(Scanned(if signed && s[0] == '-' then 0 - read.value else read.value, read.rest))
  }

  function Magnitude(whole: string, fraction: string): real
    requires AllDigits(whole) && AllDigits(fraction)
  {
    DigitsValue(whole) as real + DigitsValue(fraction) as real / Pow10(|fraction|) as real
  }

  function ReadMagnitude(s: string): Option<Scanned<real>> {
    var whole := LeadingDigits(s);
    var after := s[|whole|..];
    if after != "" && after[0] == '.' then
      var fraction := LeadingDigits(after[1..]);
      if whole == "" && fraction == "" then None
      else Some(Scanned(Magnitude(whole, fraction), after[1..][|fraction|..]))
    else if whole == "" then None
    else Some(Scanned(Magnitude(whole, ""), after))
  }

  /** strtof on plain decimals: an optional sign, digits, and an optional fraction. */
  function ReadDecimal(s: string): Option<Scanned<real>> {
    var signed := s != "" && (s[0] == '-' || s[0] == '+');
    match ReadMagnitude(if signed then s[1..] else s)
    case None => None
    case Some(read) => Some(Scanned(if signed && s[0] == '-' then -read.value else read.value, read.rest))
  }

  predicate EndsNumber(rest: string) { rest != "" && !IsDigit(rest[0]) && rest[0] != '.' }

  lemma ReadNatOfPrinted(n: nat, rest: string)
    requires EndsNumber(rest)
    ensures ReadNat(PrintNat(n) + rest) == Some(Scanned(n, rest))
  {
    PrintNatReadsBack(n);
    LeadingDigitsAre(PrintNat(n), rest);
  }

  lemma PrintedStartsWithDigit(n: nat, rest: string)
    ensures PrintNat(n) + rest != "" && IsDigit((PrintNat(n) + rest)[0])
  {
    PrintNatReadsBack(n);
    assert (PrintNat(n) + rest)[0] == PrintNat(n)[0];
  }

  lemma ReadIntOfPrinted(n: int, rest: string)
    requires EndsNumber(rest)
    ensures ReadInt(PrintInt(n) + rest) == Some(Scanned(n, rest))
  {
    hide ReadNat, PrintNat;
    if n < 0 {
      ReadNatOfPrinted(-n, rest);
      assert PrintInt(n) + rest == "-" + (PrintNat(-n) + rest);
      assert ("-" + (PrintNat(-n) + rest))[1..] == PrintNat(-n) + rest;
    } else {
      ReadNatOfPrinted(n, rest);
      PrintedStartsWithDigit(n, rest);
    }
  }

  lemma TwoDigitNumber(x: nat, y: nat)
    requires x < 10 && y < 10
    ensures AllDigits([Digit(x), Digit(y)]) && DigitsValue([Digit(x), Digit(y)]) == 10 * x + y
  {
    var s := [Digit(x), Digit(y)];
    assert s[..1] == [Digit(x)] && s[..1][..0] == "";
    assert DigitsValue(s[..1]) == x;
  }

  lemma LastTwoIsRemainder(c: nat)
    ensures AllDigits(LastTwo(c)) && DigitsValue(LastTwo(c)) == c % 100
  {
    TwoDigitNumber(c / 10 % 10, c % 10);
  }

  lemma ReadPointNumber(whole: string, digits: string, rest: string)
    requires AllDigits(whole) && whole != "" && AllDigits(digits) && EndsNumber(rest)
    ensures ReadMagnitude(whole + ("." + (digits + rest))) == Some(Scanned(Magnitude(whole, digits), rest))
  {
    hide Magnitude, LeadingDigits;
    var after := "." + (digits + rest);
    LeadingDigitsAre(whole, after);
    assert after[1..] == digits + rest;
    LeadingDigitsAre(digits, rest);
  }

  lemma ReadSigned(s: string, read: Scanned<real>)
    requires s != "" && IsDigit(s[0]) && ReadMagnitude(s) == Some(read)
    ensures ReadDecimal(s) == Some(read) && ReadDecimal("-" + s) == Some(Scanned(-read.value, read.rest))
  {
    hide ReadMagnitude;
    assert ("-" + s)[1..] == s;
  }

  lemma HundredthsSplit(c: nat)
    ensures (c / 100) as real + (c % 100) as real / 100.0 == c as real / 100.0
  {
  }

  lemma ReadDecimalOfPrinted(x: real, rest: string)
    requires EndsNumber(rest)
    ensures ReadDecimal(PrintFixed(x) + rest) == Some(Scanned(FixedValue(x), rest))
  {
    hide ReadDecimal, ReadMagnitude, Cents, LastTwo, PrintNat;
    var c := Cents(x);
    var whole, digits := PrintNat(c / 100), LastTwo(c);
    PrintNatReadsBack(c / 100);
    LastTwoIsRemainder(c);
    ReadPointNumber(whole, digits, rest);
    HundredthsSplit(c);
    LastTwoLength(c);
    assert Pow10(2) == 100;
    var text := whole + ("." + (digits + rest));
    PrintedStartsWithDigit(c / 100, "." + (digits + rest));
    ReadSigned(text, Scanned(c as real / 100.0, rest));
    if x < 0.0 {
      assert PrintFixed(x) + rest == "-" + text;
    } else {
      assert PrintFixed(x) + rest == text;
    }
  }

  lemma LastTwoLength(c: nat)
    ensures |LastTwo(c)| == 2
  {
  }
}

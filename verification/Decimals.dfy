/**
 Exact decimal texts. A number is carried as an integer scaled by a power of ten; the two
 parsers (thirty places, two places) and the three printers are related to each other.
 */
module Decimals {
  import opened Outcomes
  import Text

  // ---------------------------------------------------------------- digits

  function Pow10(n: nat): (p: nat)
    ensures p > 0
  {
    if n == 0 then 1 else 10 * Pow10(n - 1)
  }

  predicate IsDigit(c: char) {
    '0' <= c <= '9'
  }

  predicate AllDigits(s: string) {
    forall i :: 0 <= i < |s| ==> IsDigit(s[i])
  }

  function Value(s: string): nat
    requires AllDigits(s)
  {
    if s == "" then 0 else Value(s[..|s| - 1]) * 10 + (s[|s| - 1] - '0') as nat
  }

  /** The shortest digits of a number, as the integer printer writes them. */
  function Digits(n: nat): (s: string)
    ensures s != "" && AllDigits(s)
  {
    if n < 10 then ['0' + n as char] else Digits(n / 10) + ['0' + (n % 10) as char]
  }

  function Zeros(n: nat): (s: string)
    ensures |s| == n && AllDigits(s) && forall i :: 0 <= i < n ==> s[i] == '0'
  {
    seq(n, _ => '0')
  }

  function PadEnd(s: string, n: nat): (r: string)
    ensures |r| == if |s| < n then n else |s|
  {
    if |s| < n then s + Zeros(n - |s|) else s
  }

  function PadStart(s: string, n: nat): (r: string)
    ensures |r| == if |s| < n then n else |s|
  {
    if |s| < n then Zeros(n - |s|) + s else s
  }

  function StripEnd(s: string): (r: string)
    ensures |r| <= |s| && r == s[..|r|]
  {
    if s != "" && s[|s| - 1] == '0' then StripEnd(s[..|s| - 1]) else s
  }

  function StripStart(s: string): (r: string)
    ensures |r| <= |s| && r == s[|s| - |r|..] && (s != "" ==> r != "")
  {
    if |s| > 1 && s[0] == '0' then StripStart(s[1..]) else s
  }

  lemma {:induction false} ValueDigits(n: nat)
    ensures Value(Digits(n)) == n
  {
    if n >= 10 {
      ValueDigits(n / 10);
      assert Digits(n)[..|Digits(n)| - 1] == Digits(n / 10);
    }
  }

  lemma {:induction false} PowAdd(m: nat, n: nat)
    ensures Pow10(m + n) == Pow10(m) * Pow10(n)
  {
    if m > 0 {
      PowAdd(m - 1, n);
    }
  }

  lemma {:induction false} ValueConcat(a: string, b: string)
    requires AllDigits(a) && AllDigits(b)
    ensures AllDigits(a + b) && Value(a + b) == Value(a) * Pow10(|b|) + Value(b)
  {
    if b == "" {
      assert a + b == a;
    } else {
      var b' := b[..|b| - 1];
      ValueConcat(a, b');
      var ab := a + b;
      assert ab[..|ab| - 1] == a + b' && ab[|ab| - 1] == b[|b| - 1];
      AppendDigit(Value(a), Pow10(|b'|), Value(b'), (b[|b| - 1] - '0') as nat);
    }
  }

  lemma AppendDigit(v: nat, p: nat, w: nat, digit: nat)
    ensures (v * p + w) * 10 + digit == v * (10 * p) + (w * 10 + digit)
  {
  }

  lemma {:induction false} ValueBound(s: string)
    requires AllDigits(s)
    ensures Value(s) < Pow10(|s|)
  {
    if s != "" {
      ValueBound(s[..|s| - 1]);
    }
  }

  lemma {:induction false} ValueZeros(n: nat)
    ensures Value(Zeros(n)) == 0
  {
    if n > 0 {
      ValueZeros(n - 1);
      assert Zeros(n)[..n - 1] == Zeros(n - 1);
    }
  }

  lemma {:induction false} DigitsLength(n: nat, k: nat)
    requires n < Pow10(k) && k > 0
    ensures |Digits(n)| <= k
  {
    if n >= 10 {
      assert k > 1 by { assert Pow10(1) == 10 * Pow10(0); }
      DigitsLength(n / 10, k - 1);
    }
  }

  lemma ValuePadStart(s: string, n: nat)
    requires AllDigits(s)
    ensures AllDigits(PadStart(s, n)) && Value(PadStart(s, n)) == Value(s)
  {
    if |s| < n {
      ValueConcat(Zeros(n - |s|), s);
      ValueZeros(n - |s|);
    }
  }

  /** Stripped trailing zeros come back by padding. */
  lemma {:induction false} StripThenPad(s: string, n: nat)
    requires n <= |s|
    ensures PadEnd(StripEnd(s), |s|) == s
    ensures PadEnd(StripEnd(s), n)[..n] == s[..n]
  {
    if s != "" && s[|s| - 1] == '0' {
      var s' := s[..|s| - 1];
      StripThenPad(s', if n < |s| then n else n - 1);
      assert PadEnd(StripEnd(s), |s|) == s;
    }
    assert PadEnd(StripEnd(s), n)[..n] == s[..n];
  }

  lemma {:induction false} StripStartValue(s: string)
    requires AllDigits(s)
    ensures AllDigits(StripStart(s)) && Value(StripStart(s)) == Value(s)
  {
    if |s| > 1 && s[0] == '0' {
      StripStartValue(s[1..]);
      assert s == Zeros(1) + s[1..];
      ValueConcat(Zeros(1), s[1..]);
      ValueZeros(1);
    }
  }

  lemma Recompose(a: nat, d: nat)
    requires d > 0
    ensures (a / d) * d + a % d == a
  {
  }

  // ---------------------------------------------------------------- the decimal grammar

  datatype Sign = NoSign | Plus | Minus

  function SignText(sign: Sign): string {
    match sign
    case NoSign => ""
    case Plus => "+"
    case Minus => "-"
  }

  /** A decimal text, split as the pattern splits it: digits, and digits after a point unless `fraction` is empty. */
  datatype Decimal = Decimal(sign: Sign, whole: string, fraction: string)

  predicate WellFormed(d: Decimal) {
    AllDigits(d.whole) && d.whole != "" && AllDigits(d.fraction)
  }

  function RenderUnsigned(d: Decimal): string {
    d.whole + (if d.fraction == "" then "" else "." + d.fraction)
  }

  function Render(d: Decimal): string {
    SignText(d.sign) + RenderUnsigned(d)
  }

  /** How many digits a text starts with. */
  function DigitRun(s: string): (n: nat)
    ensures n <= |s| && AllDigits(s[..n]) && (n < |s| ==> !IsDigit(s[n]))
  {
    if s == "" || !IsDigit(s[0]) then 0 else
      var n := 1 + DigitRun(s[1..]);
      assert forall i :: 1 <= i < n ==> s[i] == s[1..][..n - 1][i - 1];
      n
  }

  function SignOf(s: string): Sign {
    if s == "" then NoSign else if s[0] == '+' then Plus else if s[0] == '-' then Minus else NoSign
  }

  function ParseUnsigned(sign: Sign, s: string): Option<Decimal> {
    var k := DigitRun(s);
    if k == 0 then None
    else if k == |s| then Some(Decimal(sign, s, ""))
    else if s[k] == '.' && k + 1 < |s| && AllDigits(s[k + 1..]) then Some(Decimal(sign, s[..k], s[k + 1..]))
    else None
  }

  function Unsigned(s: string): string {
    if SignOf(s).NoSign? then s else s[1..]
  }

  function Parse(s: string): Option<Decimal> {
    ParseUnsigned(SignOf(s), Unsigned(s))
  }

  /** The parser accepts exactly the rendered decimals, and reads back what was rendered. */
  lemma ParseExact(s: string, d: Decimal)
    ensures Parse(s) == Some(d) <==> WellFormed(d) && s == Render(d)
  {
    hide Parse, Render;
    if WellFormed(d) && s == Render(d) {
      RenderParses(d);
    }
    if Parse(s) == Some(d) {
      ParsedRenders(s);
    }
  }

  lemma RenderParses(d: Decimal)
    requires WellFormed(d)
    ensures Parse(Render(d)) == Some(d)
  {
    assert RenderUnsigned(d)[0] == d.whole[0];
    SignSplit(d.sign, RenderUnsigned(d));
    hide RenderUnsigned, Unsigned, SignOf, SignText, ParseUnsigned;
    RenderParsesUnsigned(d);
  }

  lemma SignSplit(sign: Sign, body: string)
    requires body != "" && IsDigit(body[0])
    ensures SignOf(SignText(sign) + body) == sign
    ensures Unsigned(SignText(sign) + body) == body
  {
    assert SignText(NoSign) + body == body;
  }

  lemma SignJoin(s: string)
    ensures s == SignText(SignOf(s)) + Unsigned(s)
  {
    assert s == "" + s;
    if s != "" {
      assert s == [s[0]] + s[1..];
    }
  }

  lemma RenderParsesUnsigned(d: Decimal)
    requires WellFormed(d)
    ensures ParseUnsigned(d.sign, RenderUnsigned(d)) == Some(d)
  {
    var body := RenderUnsigned(d);
    var rest := if d.fraction == "" then "" else "." + d.fraction;
    RunOf(d.whole, rest);
    assert body == d.whole + rest;
    if d.fraction == "" {
      assert body == d.whole;
    } else {
      assert body[..|d.whole|] == d.whole;
      assert body[|d.whole|] == '.' && body[|d.whole| + 1..] == d.fraction;
    }
  }

  lemma ParsedRenders(s: string)
    requires Parse(s).Some?
    ensures WellFormed(Parse(s).value) && s == Render(Parse(s).value)
  {
    SignJoin(s);
    var d := Parse(s).value;
    hide SignOf, SignText, Unsigned, ParseUnsigned, RenderUnsigned, WellFormed;
    ParsedRendersUnsigned(SignOf(s), Unsigned(s));
    assert Render(d) == SignText(d.sign) + RenderUnsigned(d);
    assert RenderUnsigned(d) == Unsigned(s);
  }

  lemma ParsedRendersUnsigned(sign: Sign, s: string)
    requires ParseUnsigned(sign, s).Some?
    ensures var d := ParseUnsigned(sign, s).value; WellFormed(d) && s == RenderUnsigned(d) && d.sign == sign
  {
    var k := DigitRun(s);
    assert s == s[..k] + s[k..];
    if k < |s| {
      assert s[k..] == "." + s[k + 1..];
    }
  }

  lemma {:induction false} RunOf(digits: string, rest: string)
    requires AllDigits(digits) && (rest != "" ==> !IsDigit(rest[0]))
    ensures DigitRun(digits + rest) == |digits|
  {
    if digits == "" {
      assert digits + rest == rest;
    } else {
      RunOf(digits[1..], rest);
      assert (digits + rest)[1..] == digits[1..] + rest;
    }
  }

  lemma RenderNoSign(d: Decimal)
    requires d.sign.NoSign?
    ensures Render(d) == RenderUnsigned(d)
  {
    assert SignText(NoSign) + RenderUnsigned(d) == RenderUnsigned(d);
  }

  /** Decimals carry no white space, so reading them is not changed by trimming. */
  lemma RenderedIsTrimmed(d: Decimal)
    requires WellFormed(d)
    ensures Text.Trim(Render(d)) == Render(d)
  {
    Text.TrimFixed(Render(d));
    assert Text.IsTrimmed(Render(d));
  }

  lemma ReadRendered(d: Decimal)
    requires WellFormed(d)
    ensures Parse(Text.Trim(Render(d))) == Some(d)
  {
    RenderedIsTrimmed(d);
    ParseExact(Render(d), d);
  }

  // ---------------------------------------------------------------- thirty places

  const SCALE: nat := 30
  const FACTOR: nat := 1_0000000000_0000000000_0000000000
  const CENT: nat := 1_0000000000_0000000000_00000000

  lemma FactorIsPower()
    ensures Pow10(SCALE) == FACTOR && Pow10(28) == CENT && Pow10(2) == 100
  {
    assert Pow10(10) == 1_0000000000;
    PowAdd(10, 10);
    PowAdd(20, 8);
    PowAdd(20, 10);
  }

  function Signed(sign: Sign, n: int): int {
    if sign.Minus? then -n else n
  }

  function ScaledOf(d: Decimal): int
    requires WellFormed(d)
  {
    Signed(d.sign, Value(d.whole) * FACTOR + Value(PadEnd(d.fraction, SCALE)[..SCALE]))
  }

  /** The thirty-place parser; digits beyond the thirtieth are dropped. */
  function ScaledDecimal(s: string): Option<int> {
    var d := Parse(Text.Trim(s));
    if d.None? then None else (ParseExact(Text.Trim(s), d.value); Some(ScaledOf(d.value)))
  }

  lemma ScaledRendered(d: Decimal)
    requires WellFormed(d)
    ensures ScaledDecimal(Render(d)) == Some(ScaledOf(d))
  {
    hide Parse, Render, ScaledOf, WellFormed, Text.Trim;
    ReadRendered(d);
  }

  /** The payout core removes leading zeros from the whole part first. */
  function ScaledStripped(s: string): Option<int> {
    var d := Parse(Text.Trim(s));
    if d.None? then None
    else
      ParseExact(Text.Trim(s), d.value);
      Some(ScaledOf(d.value.(whole := StripStart(d.value.whole))))
  }

  lemma ParsersAgree(s: string)
    ensures ScaledStripped(s) == ScaledDecimal(s)
  {
    hide Parse, Value, StripStart, PadEnd, Render, Text.Trim;
    var d := Parse(Text.Trim(s));
    if d.Some? {
      ParseExact(Text.Trim(s), d.value);
      StripStartValue(d.value.whole);
    }
  }

  function Magnitude(x: int): nat {
    if x < 0 then -x else x
  }

  /** The decimal that the printer writes for a scaled integer. */
  function Printed(x: int): (d: Decimal)
    ensures WellFormed(d)
  {
    var a := Magnitude(x);
    ValuePadStart(Digits(a % FACTOR), SCALE);
    Decimal(if x < 0 then Minus else NoSign, Digits(a / FACTOR), StripEnd(PadStart(Digits(a % FACTOR), SCALE)))
  }

  function DecimalString(x: int): string {
    Render(Printed(x))
  }

  lemma {:induction false} NoLeadingZero(n: nat)
    ensures Digits(n) == "0" || Digits(n)[0] != '0'
    ensures n > 0 ==> Digits(n)[0] != '0'
  {
    if n >= 10 {
      NoLeadingZero(n / 10);
    }
  }

  lemma {:induction false} StrippedEnd(s: string)
    ensures var r := StripEnd(s); r == "" || r[|r| - 1] != '0'
  {
    if s != "" && s[|s| - 1] == '0' {
      StrippedEnd(s[..|s| - 1]);
    }
  }

  /** The printed text is the shortest: a sign only if it is needed, no leading and no trailing zeros, at most thirty places. */
  lemma ShortestText(x: int) returns (d: Decimal)
    ensures WellFormed(d) && DecimalString(x) == Render(d)
    ensures d.sign == (if x < 0 then Minus else NoSign) && (d.whole == "0" || d.whole[0] != '0')
    ensures |d.fraction| <= 30 && (d.fraction == "" || d.fraction[|d.fraction| - 1] != '0')
    ensures Value(d.whole) * FACTOR + Value(PadEnd(d.fraction, 30)) == (if x < 0 then -x else x)
  {
    d := Printed(x);
    NoLeadingZero(Magnitude(x) / FACTOR);
    StrippedEnd(PadStart(Digits(Magnitude(x) % FACTOR), SCALE));
    PrintedFraction(x);
    ValueDigits(Magnitude(x) / FACTOR);
    hide PadEnd, PadStart, StripEnd, Digits, Value;
  }

  /** The fraction of a printed decimal, padded again, is the fractional part of the number. */
  lemma PrintedFraction(x: int)
    ensures var padded := PadStart(Digits(Magnitude(x) % FACTOR), SCALE);
            && |padded| == SCALE && AllDigits(padded) && Value(padded) == Magnitude(x) % FACTOR
            && PadEnd(Printed(x).fraction, SCALE) == padded
            && PadEnd(Printed(x).fraction, 2)[..2] == padded[..2]
  {
    var fr := Magnitude(x) % FACTOR;
    FactorIsPower();
    DigitsLength(fr, SCALE);
    ValuePadStart(Digits(fr), SCALE);
    ValueDigits(fr);
    StripThenPad(PadStart(Digits(fr), SCALE), 2);
  }

  /** Printing any integer and reading it back is the identity, negative numbers included. */
  lemma ScaledRoundTrip(x: int)
    ensures ScaledDecimal(DecimalString(x)) == Some(x)
  {
    hide PadEnd, PadStart, StripEnd, Value, Digits, Render, ScaledDecimal;
    var d := Printed(x);
    ScaledRendered(d);
    PrintedFraction(x);
    var padded := PadEnd(d.fraction, SCALE);
    assert padded[..SCALE] == padded;
    var q, r := Magnitude(x) / FACTOR, Magnitude(x) % FACTOR;
    Recompose(Magnitude(x), FACTOR);
    ValueDigits(q);
    assert ScaledOf(d) == Signed(d.sign, q * FACTOR + r);
  }

  /** The text before and after the first point, as splitting at points gives them. */
  function BeforePoint(s: string): string {
    if s == "" || s[0] == '.' then "" else [s[0]] + BeforePoint(s[1..])
  }

  function AfterPoint(s: string): string {
    if s == "" then "" else if s[0] == '.' then BeforePoint(s[1..]) else AfterPoint(s[1..])
  }

  function MoneyString(x: int): string {
    var s := DecimalString(x);
    BeforePoint(s) + "." + PadEnd(AfterPoint(s), 2)[..2]
  }

  lemma {:induction false} SplitAtPoint(before: string, after: string)
    requires '.' !in before && '.' !in after
    ensures BeforePoint(before) == before && AfterPoint(before) == ""
    ensures BeforePoint(before + "." + after) == before && AfterPoint(before + "." + after) == after
  {
    if before != "" {
      SplitAtPoint(before[1..], after);
      assert (before + "." + after)[1..] == before[1..] + "." + after;
      assert before == [before[0]] + before[1..];
    } else {
      NoPoint(after);
      assert ("." + after)[1..] == after;
      assert before + "." + after == "." + after;
    }
  }

  lemma {:induction false} NoPoint(s: string)
    requires '.' !in s
    ensures BeforePoint(s) == s
  {
    if s != "" {
      NoPoint(s[1..]);
      assert s == [s[0]] + s[1..];
    }
  }

  // ---------------------------------------------------------------- two places

  function MinorOf(d: Decimal): int
    requires WellFormed(d)
  {
    Signed(d.sign, Value(d.whole) * 100 + Value(PadEnd(d.fraction, 2)[..2]))
  }

  predicate NoHiddenCents(fraction: string) {
    forall i :: 2 <= i < |fraction| ==> fraction[i] == '0'
  }

  /** The minor-unit parser refuses any digit beyond the cents. */
  function DecimalToMinor(s: string): Option<int> {
    var d := Parse(Text.Trim(s));
    if d.None? then None
    else
      ParseExact(Text.Trim(s), d.value);
      if !NoHiddenCents(d.value.fraction) then None else Some(MinorOf(d.value))
  }

  lemma MinorRendered(d: Decimal)
    requires WellFormed(d)
    ensures DecimalToMinor(Render(d)) == if NoHiddenCents(d.fraction) then Some(MinorOf(d)) else None
  {
    hide Parse, Render, MinorOf, WellFormed, NoHiddenCents, Text.Trim;
    ReadRendered(d);
  }

  /** A signed integer as the source prints it. */
  function Integer(n: int): string {
    if n < 0 then "-" + Digits(-n) else Digits(n)
  }

  /** Truncating division and remainder, as the source's integers divide. */
  function Quotient(a: int, b: nat): int
    requires b > 0
  {
    if a < 0 then -(-a / b) else a / b
  }

  function Remainder(a: int, b: nat): int
    requires b > 0
  {
    if a < 0 then -(-a % b) else a % b
  }

  function MinorToMoney(n: int): string {
    Integer(Quotient(n, 100)) + "." + PadStart(Integer(Remainder(n, 100)), 2)
  }

  /** The decimal that the minor-unit printer writes while the remainder is not negative. */
  function PrintedMinor(q: int, r: nat): (d: Decimal)
    requires r < 100
    ensures WellFormed(d) && |d.fraction| == 2
  {
    FactorIsPower();
    DigitsLength(r, 2);
    ValuePadStart(Digits(r), 2);
    Decimal(if q < 0 then Minus else NoSign, Digits(Magnitude(q)), PadStart(Digits(r), 2))
  }

  /**
   The printer of minor units is exact for every number that is not negative or has no
   cents; for all others its text is not a decimal at all.
   */
  lemma MinorRoundTrip(n: int)
    ensures DecimalToMinor(MinorToMoney(n)) == if n >= 0 || n % 100 == 0 then Some(n) else None
  {
    hide DecimalToMinor, Integer, PadStart;
    var q, r := Quotient(n, 100), Remainder(n, 100);
    if r >= 0 {
      MinorPrinted(q, r);
    } else {
      NegativeCentsUnreadable(q, r);
    }
  }

  lemma MinorPrinted(q: int, r: nat)
    requires r < 100
    ensures DecimalToMinor(Integer(q) + "." + PadStart(Integer(r), 2))
         == Some(Signed(if q < 0 then Minus else NoSign, Magnitude(q) * 100 + r))
  {
    hide Parse, Value, Digits, PadStart, PadEnd, Text.Trim;
    var d := PrintedMinor(q, r);
    ValueDigits(Magnitude(q));
    ValuePadStart(Digits(r), 2);
    ValueDigits(r);
    PadOfTwo(d.fraction);
    assert MinorOf(d) == Signed(d.sign, Magnitude(q) * 100 + r);
    RenderedMinor(q, r);
    hide Render, MinorOf, Integer, PrintedMinor;
    ReadRendered(d);
  }

  lemma RenderedMinor(q: int, r: nat)
    requires r < 100
    ensures Render(PrintedMinor(q, r)) == Integer(q) + "." + PadStart(Integer(r), 2)
  {
    hide PadStart, Digits;
    var d := PrintedMinor(q, r);
    assert Integer(q) == SignText(d.sign) + d.whole;
    assert Render(d) == Integer(q) + "." + d.fraction;
  }

  lemma NegativeCentsUnreadable(q: int, r: int)
    requires r < 0
    ensures DecimalToMinor(Integer(q) + "." + PadStart(Integer(r), 2)) == None
  {
    hide DecimalToMinor;
    var s := Integer(q) + "." + PadStart(Integer(r), 2);
    assert PadStart(Integer(r), 2) == "-" + Digits(-r);
    SignInFraction(Integer(q), Digits(-r));
    assert s == Integer(q) + ".-" + Digits(-r);
  }

  lemma SignInFraction(before: string, after: string)
    requires before != "" && after != "" && !Text.IsSpace(before[0]) && AllDigits(after)
    ensures DecimalToMinor(before + ".-" + after) == None
  {
    var s := before + ".-" + after;
    assert s[0] == before[0] && s[|s| - 1] == after[|after| - 1];
    assert s[|before|] == '.' && s[|before| + 1] == '-';
    Text.TrimFixed(s);
    assert Text.IsTrimmed(s);
    SignAfterPoint(s, |before|);
  }

  lemma SignAfterPoint(s: string, i: nat)
    requires i + 1 < |s| && s[i] == '.' && !IsDigit(s[i + 1])
    ensures Parse(s) == None
  {
    hide Parse, Render;
    if Parse(s).Some? {
      ParseExact(s, Parse(s).value);
      PointThenDigit(Parse(s).value, i);
    }
  }

  /** In a rendered decimal a point is followed by a digit. */
  lemma PointThenDigit(d: Decimal, i: nat)
    requires WellFormed(d) && i + 1 < |Render(d)| && Render(d)[i] == '.'
    ensures IsDigit(Render(d)[i + 1])
  {
    var before := SignText(d.sign) + d.whole;
    assert d.fraction == "" ==> Render(d) == before;
    assert d.fraction != "";
    assert Render(d) == before + "." + d.fraction;
    assert i == |before|;
  }

  /** Both parsers agree: minor units are the scaled number in cents, unless digits were dropped. */
  lemma MinorIsScaled(s: string, m: int)
    ensures DecimalToMinor(s) == Some(m) ==> ScaledDecimal(s) == Some(m * CENT)
    ensures Parse(Text.Trim(s)).Some? && |Parse(Text.Trim(s)).value.fraction| <= SCALE && ScaledDecimal(s) == Some(m * CENT)
            ==> DecimalToMinor(s) == Some(m)
  {
    var p := Parse(Text.Trim(s));
    if p.Some? {
      ParseExact(Text.Trim(s), p.value);
      FractionSplit(p.value);
      SameCents(MinorOf(p.value), m);
    }
  }

  /** Money written from minor units reads back as that many cents at thirty places. */
  lemma MoneyScales(n: nat)
    ensures ScaledDecimal(MinorToMoney(n)) == Some(n * CENT)
  {
    MinorRoundTrip(n);
    MinorIsScaled(MinorToMoney(n), n);
  }

  lemma SameCents(a: int, b: int)
    ensures a * CENT == b * CENT <==> a == b
  {
  }

  /** Thirty digits after the point are two shown digits and twenty-eight hidden ones. */
  lemma FractionDigits(fraction: string)
    requires AllDigits(fraction)
    ensures var full := PadEnd(fraction, SCALE)[..SCALE]; var two := PadEnd(fraction, 2)[..2];
            && full[..2] == two && AllDigits(full) && AllDigits(two)
            && Value(full) == Value(two) * CENT + Value(full[2..]) && Value(full[2..]) < CENT
  {
    var full := PadEnd(fraction, SCALE)[..SCALE];
    var two := PadEnd(fraction, 2)[..2];
    assert full == two + full[2..];
    ValueConcat(two, full[2..]);
    ValueBound(full[2..]);
    FactorIsPower();
  }

  /** The thirty-place value is the cents plus whatever hides behind them. */
  lemma FractionSplit(d: Decimal)
    requires WellFormed(d)
    ensures NoHiddenCents(d.fraction) ==> ScaledOf(d) == MinorOf(d) * CENT
    ensures |d.fraction| <= SCALE && !NoHiddenCents(d.fraction) ==> forall m: int :: ScaledOf(d) != m * CENT
  {
    FractionDigits(d.fraction);
    var full := PadEnd(d.fraction, SCALE)[..SCALE];
    var hidden := full[2..];
    if NoHiddenCents(d.fraction) {
      assert hidden == Zeros(28);
      ValueZeros(28);
    } else if |d.fraction| <= SCALE {
      var i :| 2 <= i < |d.fraction| && d.fraction[i] != '0';
      assert hidden[i - 2] == d.fraction[i];
      ValuePositive(hidden, i - 2);
    }
    var cents := Value(d.whole) * 100 + Value(PadEnd(d.fraction, 2)[..2]);
    hide PadEnd, Value, NoHiddenCents;
    if Value(hidden) > 0 {
      forall m: int ensures ScaledOf(d) != m * CENT {
        NotAMultiple(cents, Value(hidden), if d.sign.Minus? then -m else m);
      }
    }
  }

  lemma {:induction false} ValuePositive(s: string, i: nat)
    requires AllDigits(s) && i < |s| && s[i] != '0'
    ensures Value(s) > 0
  {
    if i < |s| - 1 {
      ValuePositive(s[..|s| - 1], i);
    }
  }

  lemma NotAMultiple(q: nat, r: nat, m: int)
    requires 0 < r < CENT
    ensures q * CENT + r != m * CENT
  {
  }

  /** What the money printer shows is the printed decimal with two digits after the point. */
  lemma MoneyText(x: int)
    ensures var d := Printed(x); var two := PadEnd(d.fraction, 2)[..2];
            |two| == 2 && AllDigits(two) && MoneyString(x) == Render(d.(fraction := two))
  {
    hide Printed;
    RenderedSplits(Printed(x));
    FractionDigits(Printed(x).fraction);
  }

  lemma RenderedSplits(d: Decimal)
    requires WellFormed(d)
    ensures BeforePoint(Render(d)) == SignText(d.sign) + d.whole && AfterPoint(Render(d)) == d.fraction
    ensures forall two | |two| == 2 :: Render(d.(fraction := two)) == SignText(d.sign) + d.whole + "." + two
  {
    var before := SignText(d.sign) + d.whole;
    DigitsHaveNoPoint(d);
    SplitAtPoint(before, d.fraction);
    if d.fraction == "" {
      assert Render(d) == before;
    } else {
      assert Render(d) == before + "." + d.fraction;
    }
    hide SignText, BeforePoint, AfterPoint, Render;
    forall two | |two| == 2 ensures Render(d.(fraction := two)) == before + "." + two {
      RenderedWith(d, two);
    }
  }

  lemma DigitsHaveNoPoint(d: Decimal)
    requires WellFormed(d)
    ensures '.' !in SignText(d.sign) + d.whole && '.' !in d.fraction
  {
  }

  lemma RenderedWith(d: Decimal, fraction: string)
    requires fraction != ""
    ensures Render(d.(fraction := fraction)) == SignText(d.sign) + d.whole + "." + fraction
  {
    assert SignText(d.sign) + (d.whole + ("." + fraction)) == SignText(d.sign) + d.whole + "." + fraction;
  }

  /** The printed money is the number cut off after two places, towards zero. */
  lemma MoneyTruncates(x: int)
    ensures var cents := Magnitude(x) / CENT; var sign := if x < 0 then -1 else 1;
            ScaledDecimal(MoneyString(x)) == Some(sign * (cents * CENT)) && Magnitude(x) - cents * CENT < CENT
  {
    hide PadEnd, Digits, Value, Render, ScaledDecimal, MoneyString;
    var d := Printed(x);
    var a := Magnitude(x);
    var two := PadEnd(d.fraction, 2)[..2];
    MoneyText(x);
    ScaledRendered(d.(fraction := two));
    FractionSplit(d.(fraction := two));
    PadOfTwo(two);
    FractionDigits(d.fraction);
    PrintedFraction(x);
    ValueDigits(a / FACTOR);
    var hidden := PadEnd(d.fraction, SCALE)[..SCALE][2..];
    assert PadEnd(d.fraction, SCALE)[..SCALE] == PadEnd(d.fraction, SCALE);
    CutOff(a, Value(two), Value(hidden));
  }

  lemma PadOfTwo(two: string)
    requires |two| == 2
    ensures PadEnd(two, 2)[..2] == two
  {
  }

  lemma CutOff(a: nat, two: nat, hidden: nat)
    requires a % FACTOR == two * CENT + hidden && hidden < CENT
    ensures a / CENT == a / FACTOR * 100 + two
  {
  }
}

/** Canonical money texts: the server's normaliser, the client's, and the client's comparison. */
module Money {
  import opened Outcomes
  import opened Decimals
  import Text

  /** A value as it arrives: a text, a number with its printed form, anything else with a printed form, or nothing. */
  datatype Raw =
    | Typed(text: string)
    | Number(text: string, finite: bool, safeInteger: bool)
    | Printable(text: string)
    | Nothing

  const MAX_SAFE_INTEGER: int := 9007199254740991

  /** Plain notation: no sign, no leading zeros, and one or two digits after a point if there is one. */
  predicate Plain(s: string) {
    var d := ParseUnsigned(NoSign, s);
    && d.Some?
    && |d.value.fraction| <= 2
    && (d.value.whole == "0" || (d.value.whole != "" && d.value.whole[0] != '0'))
  }

  function PlainParts(s: string): (d: Decimal)
    requires Plain(s)
    ensures WellFormed(d) && d.sign.NoSign? && |d.fraction| <= 2 && s == RenderUnsigned(d)
    ensures d.whole == "0" || d.whole[0] != '0'
  {
    ParsedRendersUnsigned(NoSign, s);
    ParseUnsigned(NoSign, s).value
  }

  /** The amount in cents that a plain text denotes. */
  function Cents(s: string): nat
    requires Plain(s)
  {
    var d := PlainParts(s);
    Value(d.whole) * 100 + Value(PadEnd(d.fraction, 2))
  }

  function TwoPlaces(s: string): string
    requires Plain(s)
  {
    PlainParts(s).whole + "." + PadEnd(PlainParts(s).fraction, 2)
  }

  /** Digits without a leading zero, and perhaps a point and one or two more: so many dollars and so many cents. */
  lemma PlainExact(s: string, whole: string, fraction: string)
    requires AllDigits(whole) && AllDigits(fraction) && whole != ""
    requires s == whole + (if fraction == "" then "" else "." + fraction)
    ensures Plain(s) <==> (whole == "0" || whole[0] != '0') && |fraction| <= 2
    ensures Plain(s) ==> Cents(s) == Value(whole) * 100
                                     + (if fraction == "" then 0 else if |fraction| == 1 then Value(fraction) * 10 else Value(fraction))
  {
    var d := Decimal(NoSign, whole, fraction);
    assert s == RenderUnsigned(d);
    RenderParsesUnsigned(d);
    if |fraction| <= 2 {
      TwoPlacesValue(fraction);
    }
    hide Value, ParseUnsigned, RenderUnsigned, PadEnd;
  }

  lemma TwoPlacesValue(fraction: string)
    requires AllDigits(fraction) && |fraction| <= 2
    ensures AllDigits(PadEnd(fraction, 2))
    ensures Value(PadEnd(fraction, 2)) == if fraction == "" then 0 else if |fraction| == 1 then Value(fraction) * 10 else Value(fraction)
  {
    if |fraction| == 1 {
      assert (fraction + Zeros(1))[..1] == fraction;
    } else if fraction == "" {
      ValueZeros(2);
      assert "" + Zeros(2) == Zeros(2);
    }
  }

  lemma PlainSplits(s: string) returns (whole: string, fraction: string)
    requires Plain(s)
    ensures AllDigits(whole) && AllDigits(fraction) && whole != ""
    ensures s == whole + (if fraction == "" then "" else "." + fraction)
  {
    whole, fraction := PlainParts(s).whole, PlainParts(s).fraction;
  }

  function NormalizePositiveUsdMoney(v: Raw): Option<string> {
    if v.Nothing? || (v.Number? && !v.finite) then None
    else if v.text == "" || v.text != Text.Trim(v.text) || !Plain(v.text) then None
    else if Cents(v.text) == 0 then None
    else if v.Number? && Cents(v.text) > MAX_SAFE_INTEGER then None
    else Some(TwoPlaces(v.text))
  }

  function NormalizeExactNonNegativeMoney(v: Raw): Option<string> {
    if !(v.Typed? || v.Number?) || (v.Number? && !v.safeInteger) then None
    else if v.text != Text.Trim(v.text) || !Plain(v.text) || |PlainParts(v.text).whole| > 16 then None
    else Some(TwoPlaces(v.text))
  }

  function RemovePoint(s: string): string {
    if s == "" then "" else if s[0] == '.' then s[1..] else [s[0]] + RemovePoint(s[1..])
  }

  /** The digits of the normalised text without its point, read as one number. */
  function MinorUnits(v: Raw): Option<int> {
    var n := NormalizeExactNonNegativeMoney(v);
    if n.None? then None
    else
      PointRemoved(v.text);
      Some(Value(RemovePoint(n.value)))
  }

  predicate IsExactMoneyAtMost(v: Raw, maximum: Raw) {
    MinorUnits(v).Some? && MinorUnits(maximum).Some? && MinorUnits(v).value <= MinorUnits(maximum).value
  }

  // ---------------------------------------------------------------- canonical form

  lemma {:induction false} DigitsOfValue(s: string)
    requires AllDigits(s) && s != "" && (s == "0" || s[0] != '0')
    ensures Digits(Value(s)) == s
    ensures |s| > 1 ==> Value(s) >= 10
  {
    var n := |s| - 1;
    if n > 0 {
      var s' := s[..n];
      DigitsOfValue(s');
      assert Value(s') > 0 by {
        if |s'| == 1 {
          assert s'[..0] == "";
          assert Value(s') == (s'[0] - '0') as nat;
        }
      }
      assert Value(s) / 10 == Value(s') && Value(s) % 10 == (s[n] - '0') as nat;
      assert s == s' + [s[n]];
    } else {
      assert s[..0] == "" && Value(s) == (s[0] - '0') as nat;
      assert s == [s[0]];
    }
  }

  lemma TwoDigits(s: string)
    requires AllDigits(s) && |s| == 2
    ensures Value(s) < 100 && PadStart(Digits(Value(s)), 2) == s
  {
    var a, b := (s[0] - '0') as nat, (s[1] - '0') as nat;
    assert Value(s[..1][..0]) == 0 by { assert s[..1][..0] == ""; }
    assert Value(s[..1]) == a && Value(s) == a * 10 + b;
    assert s == [s[0], s[1]];
    TwoDigitNumber(a, b);
  }

  lemma TwoDigitNumber(a: nat, b: nat)
    requires a < 10 && b < 10
    ensures PadStart(Digits(a * 10 + b), 2) == ['0' + a as char, '0' + b as char]
  {
    if a == 0 {
      assert Zeros(1) + Digits(b) == ['0', '0' + b as char];
    } else {
      assert (a * 10 + b) / 10 == a && (a * 10 + b) % 10 == b;
    }
  }

  /** A normalised text is the minor-unit printer's text of the cents it denotes. */
  lemma TwoPlacesCanonical(s: string)
    requires Plain(s)
    ensures TwoPlaces(s) == MinorToMoney(Cents(s))
  {
    var d := PlainParts(s);
    var cents := PadEnd(d.fraction, 2);
    DigitsOfValue(d.whole);
    TwoDigits(cents);
    var n := Cents(s);
    assert Quotient(n, 100) == Value(d.whole) && Remainder(n, 100) == Value(cents);
  }

  lemma CentsAreMinor(s: string)
    requires Plain(s)
    ensures Cents(s) == MinorOf(PlainParts(s)) && NoHiddenCents(PlainParts(s).fraction)
  {
    hide Value, PlainParts, Plain;
    var d := PlainParts(s);
    assert PadEnd(d.fraction, 2)[..2] == PadEnd(d.fraction, 2);
  }

  /** A plain text denotes what the minor-unit parser reads in it. */
  lemma PlainReads(s: string)
    requires Plain(s)
    ensures DecimalToMinor(s) == Some(Cents(s))
  {
    var d := PlainParts(s);
    CentsAreMinor(s);
    hide Render, RenderUnsigned, DecimalToMinor, MinorOf, Cents, PlainParts, Plain, Text.Trim;
    RenderNoSign(d);
    MinorRendered(d);
  }

  /** The texts that the minor-unit printer writes are plain. */
  lemma PrintedIsPlain(n: nat)
    ensures Plain(MinorToMoney(n)) && Cents(MinorToMoney(n)) == n && TwoPlaces(MinorToMoney(n)) == MinorToMoney(n)
    ensures Text.Trim(MinorToMoney(n)) == MinorToMoney(n)
  {
    var d := PrintedMinor(n / 100, n % 100);
    RenderedMinor(n / 100, n % 100);
    RenderNoSign(d);
    NoLeadingZero(n / 100);
    RenderedIsTrimmed(d);
    hide Render, RenderUnsigned, MinorToMoney, ParseUnsigned;
    RenderParsesUnsigned(d);
    PlainReads(MinorToMoney(n));
    MinorRoundTrip(n);
    TwoPlacesCanonical(MinorToMoney(n));
  }

  /**
   What the server accepts, and what it makes of it: plain texts of a positive amount become
   the one text that the minor-unit printer writes for that amount.
   */
  lemma ServerNormalizes(v: Raw, r: string)
    ensures NormalizePositiveUsdMoney(v) == Some(r) ==>
              !v.Nothing? && Plain(v.text) && Cents(v.text) > 0 && r == MinorToMoney(Cents(v.text))
              && DecimalToMinor(v.text) == Some(Cents(v.text))
    ensures v.Typed? && Plain(v.text) && Cents(v.text) > 0 ==>
              NormalizePositiveUsdMoney(v) == Some(MinorToMoney(Cents(v.text)))
  {
    hide Plain, TwoPlaces, Cents, Text.Trim, MinorToMoney, DecimalToMinor;
    if !v.Nothing? && Plain(v.text) {
      TwoPlacesCanonical(v.text);
      PlainReads(v.text);
      PlainIsTrimmed(v.text);
    }
  }

  lemma PlainIsTrimmed(s: string)
    requires Plain(s)
    ensures s != "" && Text.Trim(s) == s
  {
    var d := PlainParts(s);
    RenderNoSign(d);
    RenderedIsTrimmed(d);
  }

  /** Normalising a normalised amount changes nothing. */
  lemma ServerIdempotent(v: Raw, r: string)
    requires NormalizePositiveUsdMoney(v) == Some(r)
    ensures NormalizePositiveUsdMoney(Typed(r)) == Some(r)
  {
    hide NormalizePositiveUsdMoney, Plain, Cents, MinorToMoney;
    ServerNormalizes(v, r);
    PrintedIsPlain(Cents(v.text));
    ServerNormalizes(Typed(r), r);
  }

  /** Two accepted values have one normal form exactly when they are the same amount. */
  lemma ServerCanonical(v: Raw, w: Raw, r: string, q: string)
    requires NormalizePositiveUsdMoney(v) == Some(r) && NormalizePositiveUsdMoney(w) == Some(q)
    ensures r == q <==> DecimalToMinor(v.text) == DecimalToMinor(w.text)
  {
    hide NormalizePositiveUsdMoney, Plain, Cents, MinorToMoney, DecimalToMinor;
    ServerNormalizes(v, r);
    ServerNormalizes(w, q);
    MinorRoundTrip(Cents(v.text));
    MinorRoundTrip(Cents(w.text));
  }

  // ---------------------------------------------------------------- the client

  lemma PointRemoved(s: string)
    requires Plain(s)
    ensures AllDigits(RemovePoint(TwoPlaces(s))) && Value(RemovePoint(TwoPlaces(s))) == Cents(s)
  {
    var d := PlainParts(s);
    var cents := PadEnd(d.fraction, 2);
    RemoveFirstPoint(d.whole, cents);
    ValueConcat(d.whole, cents);
    FactorIsPower();
  }

  lemma {:induction false} RemoveFirstPoint(before: string, after: string)
    requires AllDigits(before)
    ensures RemovePoint(before + "." + after) == before + after
  {
    if before == "" {
      assert ("." + after)[1..] == after && "" + "." + after == "." + after && "" + after == after;
    } else {
      RemoveFirstPoint(before[1..], after);
      assert (before + "." + after)[1..] == before[1..] + "." + after;
      assert [before[0]] + (before[1..] + after) == before + after;
    }
  }

  /** The client's comparison is the comparison of the amounts in cents, and refuses whatever it cannot read exactly. */
  lemma AtMostIsExact(v: Raw, maximum: Raw)
    ensures IsExactMoneyAtMost(v, maximum) <==>
              NormalizeExactNonNegativeMoney(v).Some? && NormalizeExactNonNegativeMoney(maximum).Some?
              && DecimalToMinor(v.text).Some? && DecimalToMinor(maximum.text).Some?
              && DecimalToMinor(v.text).value <= DecimalToMinor(maximum.text).value
  {
    hide Plain, TwoPlaces, Cents, Text.Trim, DecimalToMinor, RemovePoint, Value;
    ClientReads(v);
    ClientReads(maximum);
  }

  lemma ClientReads(v: Raw)
    ensures NormalizeExactNonNegativeMoney(v).Some? ==>
              !v.Nothing? && !v.Printable? && MinorUnits(v) == DecimalToMinor(v.text) && MinorUnits(v).Some?
  {
    if NormalizeExactNonNegativeMoney(v).Some? {
      PointRemoved(v.text);
      PlainReads(v.text);
    }
  }

  /** What only one side accepts: the server wants a positive amount, the client at most sixteen whole digits. */
  lemma AcceptedTexts(s: string)
    ensures NormalizePositiveUsdMoney(Typed(s)).Some? <==> Plain(s) && Cents(s) > 0
    ensures NormalizeExactNonNegativeMoney(Typed(s)).Some? <==> Plain(s) && Cents(s) < Pow10(18)
  {
    if Plain(s) {
      PlainIsTrimmed(s);
      WholeLength(s);
    }
  }

  /**
   On values that both accept, client and server write the same text, which is the minor-unit printer's
   text of the amount. The client accepts a text of the server exactly below 10^18 cents.
   */
  lemma ClientAgrees(v: Raw, r: string)
    requires NormalizePositiveUsdMoney(v) == Some(r)
    ensures var amount := DecimalToMinor(v.text);
            && amount.Some? && r == MinorToMoney(amount.value)
            && (NormalizeExactNonNegativeMoney(v).Some? ==> NormalizeExactNonNegativeMoney(v) == Some(r))
            && (v.Typed? ==> (NormalizeExactNonNegativeMoney(v).Some? <==> amount.value < Pow10(18)))
  {
    hide Plain, TwoPlaces, Cents, MinorToMoney, DecimalToMinor;
    ServerNormalizes(v, r);
    if v.Typed? {
      AcceptedTexts(v.text);
    }
  }

  lemma WholeLength(s: string)
    requires Plain(s)
    ensures |PlainParts(s).whole| <= 16 <==> Cents(s) < Pow10(18)
  {
    var d := PlainParts(s);
    TwoDigits(PadEnd(d.fraction, 2));
    WholeBound(d.whole);
    PowAdd(16, 2);
    FactorIsPower();
    hide Value, Pow10, PadEnd, PlainParts;
  }

  lemma WholeBound(s: string)
    requires AllDigits(s) && s != "" && (s == "0" || s[0] != '0')
    ensures |s| <= 16 <==> Value(s) < Pow10(16)
  {
    hide Value, Pow10, Digits;
    DigitsOfValue(s);
    if |s| <= 16 {
      ValueBound(s);
      PowMonotone(|s|, 16);
    } else {
      DigitsAtLeast(Value(s));
      PowMonotone(16, |s| - 1);
    }
  }

  lemma {:induction false} PowMonotone(m: nat, n: nat)
    requires m <= n
    ensures Pow10(m) <= Pow10(n)
  {
    if m < n {
      PowMonotone(m, n - 1);
    }
  }

  lemma {:induction false} DigitsAtLeast(n: nat)
    requires n > 0
    ensures n >= Pow10(|Digits(n)| - 1)
  {
    if n >= 10 {
      DigitsAtLeast(n / 10);
    }
  }
}

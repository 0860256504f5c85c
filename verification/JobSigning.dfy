/**
 Signing of queue payloads. The keyed hash is a parameter `mac` that gives 32 bytes for a
 text; a signature is their lower-case hexadecimal form in the field "signature".
 */
module JobSigning {
  import opened Outcomes
  import opened CanonicalJson
  import opened CanonicalJsonProof
  import Decimals

  type Byte = b: int | 0 <= b < 256
  type Mac = Units -> seq<Byte>

  const IAT: Units := [105, 97, 116]
  const VERSION: Units := [118]
  const SIGNATURE: Units := [115, 105, 103, 110, 97, 116, 117, 114, 101]
  const CLOCK_SKEW_TOLERANCE_MS: int := 60 * 1000
  const DEFAULT_MAX_AGE_MS: int := 24 * 60 * 60 * 1000

  // ---------------------------------------------------------------- objects

  function Get(fields: seq<Field>, key: Units): Json {
    if fields == [] then Undefined else if fields[0].key == key then fields[0].value else Get(fields[1..], key)
  }

  /** Assignment to a property: in place when the key exists, at the end otherwise. */
  function Put(fields: seq<Field>, key: Units, value: Json): seq<Field> {
    if fields == [] then [Field(key, value)]
    else if fields[0].key == key then [Field(key, value)] + fields[1..]
    else [fields[0]] + Put(fields[1..], key, value)
  }

  function Without(fields: seq<Field>, key: Units): seq<Field> {
    if fields == [] then []
    else if fields[0].key == key then Without(fields[1..], key)
    else [fields[0]] + Without(fields[1..], key)
  }

  // ---------------------------------------------------------------- hexadecimal

  function Hex(bytes: seq<Byte>): Units {
    if bytes == [] then [] else [HexDigit(bytes[0] / 16), HexDigit(bytes[0] % 16)] + Hex(bytes[1..])
  }

  /** Both cases of the letters are read. */
  function Nibble(u: Unit): Option<nat> {
    if 65 <= u < 71 then Some(u - 55) else HexValue(u)
  }

  /** Reading stops at the first pair that is not hexadecimal. */
  function Unhex(s: Units): seq<Byte> {
    if |s| < 2 || Nibble(s[0]).None? || Nibble(s[1]).None? then []
    else
      var n := Nibble(s[0]).value * 16 + Nibble(s[1]).value;
      assert n < 256;
      [n] + Unhex(s[2..])
  }

  lemma {:induction false} HexUnhex(bytes: seq<Byte>)
    ensures Unhex(Hex(bytes)) == bytes && |Hex(bytes)| == 2 * |bytes|
  {
    if bytes != [] {
      HexUnhex(bytes[1..]);
      assert Hex(bytes)[2..] == Hex(bytes[1..]);
      NibbleRoundTrip(bytes[0]);
      hide HexDigit, Nibble;
      assert bytes == [bytes[0]] + bytes[1..];
    }
  }

  lemma NibbleRoundTrip(b: Byte)
    ensures Nibble(HexDigit(b / 16)) == Some(b / 16) && Nibble(HexDigit(b % 16)) == Some(b % 16)
    ensures b / 16 * 16 + b % 16 == b
  {
  }

  // ---------------------------------------------------------------- sign and verify

  function IntegerNumber(n: int): Json {
    Number(Ascii(Decimals.Integer(n)))
  }

  // ---------------------------------------------------------------- the amount of a number

  function Before(t: Units, stop: Unit): Units {
    if t == [] || t[0] == stop then [] else [t[0]] + Before(t[1..], stop)
  }

  function DigitsValue(t: Units): int {
    if t == [] then 0 else DigitsValue(t[..|t| - 1]) * 10 + t[|t| - 1] - ZERO
  }

  function SignedValue(t: Units): int {
    if t != [] && t[0] == MINUS then -DigitsValue(t[1..])
    else if t != [] && t[0] == PLUS then DigitsValue(t[1..])
    else DigitsValue(t)
  }

  function Power(e: int): real
    decreases if e < 0 then -e else e
  {
    if e == 0 then 1.0 else if e > 0 then 10.0 * Power(e - 1) else Power(e + 1) / 10.0
  }

  /** The number that a numeral denotes: sign, digits with or without a point, and an exponent after "e". */
  function Amount(text: Units): real {
    var mantissa := Before(text, LOWER_E);
    var exponent := if |mantissa| < |text| then SignedValue(text[|mantissa| + 1..]) else 0;
    var whole := Before(mantissa, POINT);
    var fraction := if |whole| < |mantissa| then mantissa[|whole| + 1..] else [];
    SignedValue(whole + fraction) as real * Power(exponent - |fraction|)
  }

  lemma {:induction false} BeforeNothing(t: Units, stop: Unit)
    requires stop !in t
    ensures Before(t, stop) == t
  {
    if t != [] {
      BeforeNothing(t[1..], stop);
      assert t == [t[0]] + t[1..];
    }
  }

  lemma {:induction false} AsciiDigits(n: nat)
    ensures var t := Ascii(Decimals.Digits(n));
            DigitsValue(t) == n && forall i :: 0 <= i < |t| ==> ZERO <= t[i] <= NINE
  {
    var t := Ascii(Decimals.Digits(n));
    if n >= 10 {
      AsciiDigits(n / 10);
      assert t[..|t| - 1] == Ascii(Decimals.Digits(n / 10));
    } else {
      assert t[..0] == [];
    }
  }

  lemma IntegerAmount(n: int)
    ensures WellTyped(IntegerNumber(n)) && Amount(IntegerNumber(n).text) == n as real
  {
    var t := IntegerNumber(n).text;
    IntegerText(n);
    BeforeNothing(t, LOWER_E);
    BeforeNothing(t, POINT);
    hide SignedValue, Before, IntegerNumber, Numeral;
    assert t + [] == t && Power(0) == 1.0;
  }

  lemma DigitsText(t: Units, n: int)
    requires t != [] && DigitsValue(t) == n && forall i :: 0 <= i < |t| ==> ZERO <= t[i] <= NINE
    ensures Numeral(t) && LOWER_E !in t && POINT !in t && SignedValue(t) == n
  {
    hide DigitsValue;
  }

  lemma NegativeText(t: Units, n: int)
    requires t != [] && DigitsValue(t) == n && forall i :: 0 <= i < |t| ==> ZERO <= t[i] <= NINE
    ensures var s := [MINUS] + t; Numeral(s) && LOWER_E !in s && POINT !in s && SignedValue(s) == -n
  {
    hide DigitsValue;
    assert ([MINUS] + t)[1..] == t;
  }

  /** The printed form of an integer is an optional sign and digits, and denotes the integer. */
  lemma IntegerText(n: int)
    ensures var t := IntegerNumber(n).text; Numeral(t) && LOWER_E !in t && POINT !in t && SignedValue(t) == n
  {
    var m := if n < 0 then -n else n;
    AsciiDigits(m);
    hide DigitsValue, SignedValue, Numeral;
    if n < 0 {
      NegativeText(Ascii(Decimals.Digits(m)), m);
      assert IntegerNumber(n).text == [MINUS] + Ascii(Decimals.Digits(m));
    } else {
      DigitsText(Ascii(Decimals.Digits(m)), m);
    }
  }

  function Enriched(data: seq<Field>, iat: int): seq<Field> {
    Put(Put(data, IAT, IntegerNumber(iat)), VERSION, IntegerNumber(1))
  }

  function SignJobPayload(data: seq<Field>, iat: int, mac: Mac): seq<Field> {
    Put(Enriched(data, iat), SIGNATURE, Str(Hex(mac(Canonical(Obj(Enriched(data, iat)))))))
  }

  /** The comparison of an amount that need not be finite with a finite bound. */
  predicate Exceeds(v: Json, bound: real) {
    match v
    case Number(text) => Amount(text) > bound
    case Infinite(positive) => positive
    case _ => false
  }

  predicate Below(v: Json, bound: real) {
    match v
    case Number(text) => Amount(text) < bound
    case Infinite(positive) => !positive
    case _ => false
  }

  predicate SignatureAccepted(data: seq<Field>, mac: Mac) {
    var s := Get(data, SIGNATURE);
    s.Str? && |s.units| == 64 && Unhex(s.units) == mac(Canonical(Obj(Without(data, SIGNATURE))))
  }

  predicate VerifyJobPayload(data: seq<Field>, maxAgeMs: int, allowMissingIat: bool, now: int, mac: Mac) {
    if !SignatureAccepted(data, mac) then false
    else if maxAgeMs == 0 then true
    else
      var iat := Get(Without(data, SIGNATURE), IAT);
      if !(iat.Number? || iat.NaN? || iat.Infinite?) then allowMissingIat
      else if Exceeds(iat, (now + CLOCK_SKEW_TOLERANCE_MS) as real) then false
      else if Below(iat, (now - maxAgeMs) as real) then false
      else true
  }

  // ---------------------------------------------------------------- what a signature covers

  /** At most one field of a key, so its value is the first one found. */
  lemma {:induction false} GetIs(fields: seq<Field>, i: nat)
    requires DistinctKeys(fields) && i < |fields|
    ensures Get(fields, fields[i].key) == fields[i].value
  {
    if i > 0 {
      GetIs(fields[1..], i - 1);
    }
  }

  lemma {:induction false} GetMissing(fields: seq<Field>, key: Units)
    requires forall i :: 0 <= i < |fields| ==> fields[i].key != key
    ensures Get(fields, key) == Undefined && Without(fields, key) == fields
  {
    if fields != [] {
      GetMissing(fields[1..], key);
      assert fields == [fields[0]] + fields[1..];
    }
  }

  /** An object assigned to at one key. */
  lemma {:induction false} PutIs(fields: seq<Field>, key: Units, value: Json)
    requires DistinctKeys(fields)
    ensures DistinctKeys(Put(fields, key, value))
    ensures forall e :: e in Put(fields, key, value) <==> e == Field(key, value) || (e in fields && e.key != key)
  {
    if fields == [] {
    } else if fields[0].key == key {
      assert forall e :: e in fields <==> e == fields[0] || e in fields[1..];
    } else {
      PutIs(fields[1..], key, value);
      var rest := Put(fields[1..], key, value);
      forall j | 0 <= j < |rest| ensures rest[j].key != fields[0].key {
        assert rest[j] in rest;
      }
      assert forall e :: e in fields <==> e == fields[0] || e in fields[1..];
    }
  }

  lemma {:induction false} WithoutIs(fields: seq<Field>, key: Units)
    requires DistinctKeys(fields)
    ensures DistinctKeys(Without(fields, key))
    ensures forall e :: e in Without(fields, key) <==> e in fields && e.key != key
  {
    if fields != [] {
      WithoutIs(fields[1..], key);
      assert forall e :: e in fields <==> e == fields[0] || e in fields[1..];
      if fields[0].key != key {
        forall j | 0 <= j < |Without(fields[1..], key)| ensures Without(fields[1..], key)[j].key != fields[0].key {
          assert Without(fields[1..], key)[j] in fields[1..];
        }
      }
    }
  }

  /** The value of a key is the value of its one field, if that is defined. */
  lemma GetDefined(fields: seq<Field>, key: Units)
    requires DistinctKeys(fields)
    ensures Get(fields, key) == Undefined <==> !DefinedKey(fields, key)
    ensures Get(fields, key) != Undefined ==> Field(key, Get(fields, key)) in fields
    ensures forall e :: e in fields && e.key == key ==> Get(fields, key) == e.value
  {
    if forall i :: 0 <= i < |fields| ==> fields[i].key != key {
      GetMissing(fields, key);
    } else {
      var i :| 0 <= i < |fields| && fields[i].key == key;
      GetIs(fields, i);
    }
  }

  lemma WellTypedFields(fields: seq<Field>, e: Field)
    requires WellTyped(Obj(fields)) && e in fields
    ensures WellTyped(e.value)
  {
  }

  lemma {:induction false} AlikeReflexive(v: Json)
    requires WellTyped(v)
    ensures Alike(v, v)
    decreases v
  {
    match v
    case Arr(items) =>
      forall i | 0 <= i < |items| ensures Alike(items[i], items[i]) {
        AlikeReflexive(items[i]);
      }
    case Obj(fields) =>
      forall i | 0 <= i < |fields| ensures Alike(fields[i].value, fields[i].value) {
        AlikeReflexive(fields[i].value);
      }
    case _ =>
  }

  ghost predicate SameDefined(fs: seq<Field>, gs: seq<Field>) {
    forall e: Field :: e.value != Undefined ==> (e in fs <==> e in gs)
  }

  /** Objects with the same defined fields are alike. */
  lemma SameDefinedAlike(fs: seq<Field>, gs: seq<Field>)
    requires WellTyped(Obj(fs)) && WellTyped(Obj(gs)) && SameDefined(fs, gs)
    ensures Alike(Obj(fs), Obj(gs))
  {
    forall k ensures DefinedKey(fs, k) <==> DefinedKey(gs, k) {
      GetDefined(fs, k);
      GetDefined(gs, k);
    }
    forall i, j | 0 <= i < |fs| && 0 <= j < |gs| && fs[i].key == gs[j].key && fs[i].value != Undefined && gs[j].value != Undefined
      ensures Alike(fs[i].value, gs[j].value)
    {
      KeyDetermines(gs, fs[i], gs[j]);
      AlikeReflexive(fs[i].value);
    }
  }

  lemma AlikeGet(fs: seq<Field>, gs: seq<Field>, key: Units)
    requires DistinctKeys(fs) && DistinctKeys(gs) && Alike(Obj(fs), Obj(gs))
    ensures Alike(Get(fs, key), Get(gs, key))
  {
    GetDefined(fs, key);
    GetDefined(gs, key);
    assert DefinedKey(fs, key) <==> DefinedKey(gs, key);
    if DefinedKey(fs, key) {
      var i :| 0 <= i < |fs| && fs[i].key == key && fs[i].value != Undefined;
      var j :| 0 <= j < |gs| && gs[j].key == key && gs[j].value != Undefined;
      GetIs(fs, i);
      GetIs(gs, j);
    }
  }

  lemma WithoutWellTyped(fields: seq<Field>, key: Units)
    requires WellTyped(Obj(fields))
    ensures WellTyped(Obj(Without(fields, key)))
  {
    WithoutIs(fields, key);
    var rest := Without(fields, key);
    forall i | 0 <= i < |rest| ensures WellTyped(rest[i].value) {
      assert rest[i] in fields;
      WellTypedFields(fields, rest[i]);
    }
  }

  lemma PutWellTyped(fields: seq<Field>, key: Units, value: Json)
    requires WellTyped(Obj(fields)) && WellTyped(value)
    ensures WellTyped(Obj(Put(fields, key, value)))
  {
    PutIs(fields, key, value);
    var all := Put(fields, key, value);
    forall i | 0 <= i < |all| ensures WellTyped(all[i].value) {
      assert all[i] in all;
      if all[i] in fields {
        WellTypedFields(fields, all[i]);
      }
    }
  }

  lemma WithoutKey(fields: seq<Field>, key: Units, k: Units)
    requires DistinctKeys(fields)
    ensures DefinedKey(Without(fields, key), k) <==> DefinedKey(fields, k) && k != key
  {
    WithoutIs(fields, key);
    GetDefined(fields, k);
    GetDefined(Without(fields, key), k);
    assert Field(k, Get(fields, k)) in Without(fields, key) <==> Field(k, Get(fields, k)) in fields && k != key;
  }

  lemma AlikeWithout(fs: seq<Field>, gs: seq<Field>, key: Units)
    requires DistinctKeys(fs) && DistinctKeys(gs) && Alike(Obj(fs), Obj(gs))
    ensures Alike(Obj(Without(fs, key)), Obj(Without(gs, key)))
  {
    var fs', gs' := Without(fs, key), Without(gs, key);
    WithoutIs(fs, key);
    WithoutIs(gs, key);
    forall k ensures DefinedKey(fs', k) <==> DefinedKey(gs', k) {
      WithoutKey(fs, key, k);
      WithoutKey(gs, key, k);
      assert DefinedKey(fs, k) <==> DefinedKey(gs, k);
    }
    forall i, j | 0 <= i < |fs'| && 0 <= j < |gs'| && fs'[i].key == gs'[j].key && fs'[i].value != Undefined
                  && gs'[j].value != Undefined
      ensures Alike(fs'[i].value, gs'[j].value)
    {
      assert fs'[i] in fs && gs'[j] in gs;
      GetDefined(fs, fs'[i].key);
      GetDefined(gs, gs'[j].key);
      AlikeGet(fs, gs, fs'[i].key);
    }
  }

  /** Neither key order nor undefined fields matter to a signature. */
  lemma AlikeAccepted(signed: seq<Field>, data: seq<Field>, mac: Mac)
    requires WellTyped(Obj(signed)) && WellTyped(Obj(data)) && Alike(Obj(signed), Obj(data))
    ensures SignatureAccepted(signed, mac) <==> SignatureAccepted(data, mac)
  {
    hide Canonical, Get, Without;
    AlikeGet(signed, data, SIGNATURE);
    AlikeWithout(signed, data, SIGNATURE);
    WithoutWellTyped(signed, SIGNATURE);
    WithoutWellTyped(data, SIGNATURE);
    AlikeSameText(Obj(Without(signed, SIGNATURE)), Obj(Without(data, SIGNATURE)));
  }

  // ---------------------------------------------------------------- round trip

  lemma EnrichedWellTyped(data: seq<Field>, iat: int)
    requires WellTyped(Obj(data))
    ensures WellTyped(Obj(Enriched(data, iat)))
    ensures Get(Enriched(data, iat), IAT) == IntegerNumber(iat)
    ensures Get(Enriched(data, iat), SIGNATURE) == Get(data, SIGNATURE)
  {
    hide IntegerNumber, Get;
    IntegerAmount(iat);
    IntegerAmount(1);
    var one := Put(data, IAT, IntegerNumber(iat));
    PutWellTyped(data, IAT, IntegerNumber(iat));
    PutWellTyped(one, VERSION, IntegerNumber(1));
    PutIs(data, IAT, IntegerNumber(iat));
    PutIs(one, VERSION, IntegerNumber(1));
    assert |IAT| == 3 && |VERSION| == 1 && |SIGNATURE| == 9;
    GetDefined(Enriched(data, iat), IAT);
    assert Field(IAT, IntegerNumber(iat)) in Enriched(data, iat);
    GetDefined(Enriched(data, iat), SIGNATURE);
    GetDefined(data, SIGNATURE);
  }

  /** Taking the signature off a signed payload leaves what was signed, unless the data brought a signature of its own. */
  lemma SignedPayload(data: seq<Field>, iat: int, mac: Mac)
    requires WellTyped(Obj(data)) && forall t :: |mac(t)| == 32
    ensures var signed := SignJobPayload(data, iat, mac); var e := Enriched(data, iat);
            && WellTyped(Obj(signed)) && Get(signed, SIGNATURE) == Str(Hex(mac(Canonical(Obj(e)))))
            && Get(Without(signed, SIGNATURE), IAT) == IntegerNumber(iat)
            && (Get(data, SIGNATURE) == Undefined <==> Alike(Obj(Without(signed, SIGNATURE)), Obj(e)))
  {
    hide Canonical, Get, Hex, IntegerNumber, Without, Put, Enriched;
    var e := Enriched(data, iat);
    var s := Str(Hex(mac(Canonical(Obj(e)))));
    var signed := Put(e, SIGNATURE, s);
    EnrichedWellTyped(data, iat);
    PutWellTyped(e, SIGNATURE, s);
    PutIs(e, SIGNATURE, s);
    assert Field(SIGNATURE, s) in signed;
    GetDefined(signed, SIGNATURE);
    var rest := Without(signed, SIGNATURE);
    WithoutIs(signed, SIGNATURE);
    WithoutWellTyped(signed, SIGNATURE);
    GetDefined(e, IAT);
    GetDefined(rest, IAT);
    assert |IAT| == 3 && |SIGNATURE| == 9;
    GetDefined(e, SIGNATURE);
    GetDefined(rest, SIGNATURE);
    if Get(data, SIGNATURE) == Undefined {
      SameDefinedAlike(rest, e);
    } else {
      assert DefinedKey(e, SIGNATURE) && !DefinedKey(rest, SIGNATURE);
    }
  }

  /** A signed payload is its data with the time, version 1, and the lower-case hash of the text of these in hexadecimal. */
  lemma SignedCarries(data: seq<Field>, iat: int, mac: Mac, key: Units)
    requires DistinctKeys(data)
    ensures var signed := SignJobPayload(data, iat, mac); var e := Enriched(data, iat);
            && Get(e, key) == (if key == VERSION then IntegerNumber(1) else if key == IAT then IntegerNumber(iat) else Get(data, key))
            && Get(signed, key) == (if key == SIGNATURE then Str(Hex(mac(Canonical(Obj(e))))) else Get(e, key))
  {
    hide Canonical, Get, Put, Hex, IntegerNumber;
    var one := Put(data, IAT, IntegerNumber(iat));
    var e := Enriched(data, iat);
    PutGets(data, IAT, IntegerNumber(iat), key);
    PutGets(one, VERSION, IntegerNumber(1), key);
    PutGets(e, SIGNATURE, Str(Hex(mac(Canonical(Obj(e))))), key);
  }

  lemma FieldNames()
    ensures IAT == Ascii("iat") && VERSION == Ascii("v") && SIGNATURE == Ascii("signature")
    ensures IntegerNumber(1) == Number(Ascii("1"))
  {
    assert Decimals.Integer(1) == "1";
  }

  lemma PutGets(fields: seq<Field>, key: Units, value: Json, k: Units)
    requires DistinctKeys(fields)
    ensures DistinctKeys(Put(fields, key, value))
    ensures Get(Put(fields, key, value), k) == if k == key then value else Get(fields, k)
  {
    hide Get, Put;
    PutIs(fields, key, value);
    var later := Put(fields, key, value);
    GetDefined(fields, k);
    GetDefined(later, k);
    assert Field(key, value) in later;
    if k != key && Get(fields, k) != Undefined {
      assert Field(k, Get(fields, k)) in later;
    }
    if k != key && Get(later, k) != Undefined {
      assert Field(k, Get(later, k)) in fields;
    }
  }

  /**
   A payload signed at `iat` and received with its keys in any order, and with or without its
   undefined fields, verifies exactly inside the freshness window (or with the window switched off).
   */
  lemma SignedVerifies(data: seq<Field>, iat: int, mac: Mac, received: seq<Field>, maxAgeMs: int, allow: bool, now: int)
    requires WellTyped(Obj(data)) && Get(data, SIGNATURE) == Undefined && forall t :: |mac(t)| == 32
    requires WellTyped(Obj(received)) && Alike(Obj(SignJobPayload(data, iat, mac)), Obj(received))
    ensures VerifyJobPayload(received, maxAgeMs, allow, now, mac)
        <==> maxAgeMs == 0 || (iat <= now + 60000 && now - iat <= maxAgeMs)
  {
    hide Canonical, Get, Hex, Unhex, Without, Put, Enriched, SignJobPayload;
    var signed := SignJobPayload(data, iat, mac);
    var e := Enriched(data, iat);
    EnrichedWellTyped(data, iat);
    SignedPayload(data, iat, mac);
    WithoutWellTyped(signed, SIGNATURE);
    AlikeSameText(Obj(Without(signed, SIGNATURE)), Obj(e));
    HexUnhex(mac(Canonical(Obj(e))));
    AlikeAccepted(signed, received, mac);
    WithoutIs(signed, SIGNATURE);
    WithoutIs(received, SIGNATURE);
    AlikeWithout(signed, received, SIGNATURE);
    AlikeGet(Without(signed, SIGNATURE), Without(received, SIGNATURE), IAT);
    IntegerAmount(iat);
    hide Amount, IntegerNumber;
  }

  // ---------------------------------------------------------------- exactly when

  /** The code unit is the hexadecimal digit of `n`, in either case. */
  ghost predicate IsDigit(u: Unit, n: nat) {
    n < 16 && (u == "0123456789abcdef"[n] as int || u == "0123456789ABCDEF"[n] as int)
  }

  ghost predicate Spells(s: Units, bytes: seq<Byte>) {
    && |s| == 2 * |bytes|
    && forall i :: 0 <= i < |bytes| ==> IsDigit(s[2 * i], bytes[i] / 16) && IsDigit(s[2 * i + 1], bytes[i] % 16)
  }

  lemma NibbleIs(u: Unit, n: nat)
    requires n < 16
    ensures Nibble(u) == Some(n) <==> IsDigit(u, n)
    ensures Nibble(u).Some? ==> Nibble(u).value < 16
  {
  }

  lemma UnhexFirst(s: Units, bytes: seq<Byte>)
    requires bytes != [] && |s| == 2 * |bytes|
    ensures Unhex(s) == bytes <==>
              IsDigit(s[0], bytes[0] / 16) && IsDigit(s[1], bytes[0] % 16) && Unhex(s[2..]) == bytes[1..]
  {
    NibbleIs(s[0], bytes[0] / 16);
    NibbleIs(s[1], bytes[0] % 16);
    hide Nibble, IsDigit;
    if Nibble(s[0]).Some? && Nibble(s[1]).Some? {
      var n := Nibble(s[0]).value * 16 + Nibble(s[1]).value;
      assert Unhex(s) == [n] + Unhex(s[2..]);
      assert bytes == [bytes[0]] + bytes[1..];
      assert ([n] + Unhex(s[2..]))[1..] == Unhex(s[2..]);
      assert n / 16 == Nibble(s[0]).value && n % 16 == Nibble(s[1]).value;
    }
  }

  lemma {:induction false} UnhexSpells(s: Units, bytes: seq<Byte>)
    requires |s| == 2 * |bytes|
    ensures Unhex(s) == bytes <==> Spells(s, bytes)
  {
    if bytes != [] {
      UnhexFirst(s, bytes);
      SpellsFirst(s, bytes);
      UnhexSpells(s[2..], bytes[1..]);
      hide Unhex, Spells, IsDigit;
    }
  }

  lemma SpellsFirst(s: Units, bytes: seq<Byte>)
    requires bytes != [] && |s| == 2 * |bytes|
    ensures Spells(s, bytes) <==>
              IsDigit(s[0], bytes[0] / 16) && IsDigit(s[1], bytes[0] % 16) && Spells(s[2..], bytes[1..])
  {
    hide IsDigit;
    var t, rest := s[2..], bytes[1..];
    forall i | 0 <= i < |rest| ensures t[2 * i] == s[2 * (i + 1)] && t[2 * i + 1] == s[2 * (i + 1) + 1] && rest[i] == bytes[i + 1] {}
    if IsDigit(s[0], bytes[0] / 16) && IsDigit(s[1], bytes[0] % 16) && Spells(t, rest) {
      forall i | 0 <= i < |bytes| ensures IsDigit(s[2 * i], bytes[i] / 16) && IsDigit(s[2 * i + 1], bytes[i] % 16) {
        if i > 0 {
          assert rest[i - 1] == bytes[i];
        }
      }
    }
  }

  /** The time of signing lies in the window; a payload without one passes only if the caller allows it. */
  ghost predicate Timely(iat: Json, maxAgeMs: int, allowMissingIat: bool, now: int) {
    match iat
    case Number(text) => (now - maxAgeMs) as real <= Amount(text) <= (now + 60000) as real
    case NaN => true
    case Infinite(_) => false
    case _ => allowMissingIat
  }

  ghost predicate Fresh(rest: seq<Field>, maxAgeMs: int, allowMissingIat: bool, now: int) {
    if exists v :: Field(IAT, v) in rest then exists v :: Field(IAT, v) in rest && Timely(v, maxAgeMs, allowMissingIat, now)
    else allowMissingIat
  }

  /** `rest` is the payload without its signature. */
  ghost predicate Unsigned(data: seq<Field>, rest: seq<Field>) {
    forall e :: e in rest <==> e in data && e.key != SIGNATURE
  }

  lemma SpellsLength(s: Units, bytes: seq<Byte>)
    ensures Spells(s, bytes) ==> |s| == 2 * |bytes|
  {
  }

  lemma UnsignedText(data: seq<Field>, rest: seq<Field>)
    requires WellTyped(Obj(data)) && WellTyped(Obj(rest)) && Unsigned(data, rest)
    ensures Canonical(Obj(Without(data, SIGNATURE))) == Canonical(Obj(rest))
    ensures Get(Without(data, SIGNATURE), IAT) == Get(rest, IAT)
  {
    var own := Without(data, SIGNATURE);
    WithoutWellTyped(data, SIGNATURE);
    WithoutIs(data, SIGNATURE);
    GetDefined(own, IAT);
    GetDefined(rest, IAT);
    hide Canonical, Get, Without, Alike;
    assert forall e :: e in own <==> e in rest;
    SameDefinedAlike(own, rest);
    AlikeSameText(Obj(own), Obj(rest));
    assert Get(own, IAT) != Undefined ==> Field(IAT, Get(own, IAT)) in rest;
  }

  lemma SignatureSpelled(data: seq<Field>, bytes: seq<Byte>)
    requires DistinctKeys(data) && |bytes| == 32
    ensures var s := Get(data, SIGNATURE);
            s.Str? && |s.units| == 64 && Unhex(s.units) == bytes
            <==> exists s :: Field(SIGNATURE, Str(s)) in data && Spells(s, bytes)
  {
    var s := Get(data, SIGNATURE);
    GetDefined(data, SIGNATURE);
    hide Get, Unhex, Spells;
    if s.Str? && |s.units| == 64 {
      UnhexSpells(s.units, bytes);
      assert Field(SIGNATURE, Str(s.units)) in data;
    }
    forall t | Field(SIGNATURE, Str(t)) in data && Spells(t, bytes) ensures |t| == 64 && s == Str(t) {
      SpellsLength(t, bytes);
    }
  }

  lemma FreshRead(rest: seq<Field>, maxAgeMs: int, allow: bool, now: int)
    requires DistinctKeys(rest)
    ensures var v := Get(rest, IAT); Fresh(rest, maxAgeMs, allow, now) <==> Timely(v, maxAgeMs, allow, now)
  {
    GetDefined(rest, IAT);
    hide Get, Amount;
    var v := Get(rest, IAT);
    assert v != Undefined ==> Field(IAT, v) in rest;
  }

  /**
   Any payload at all verifies exactly when its signature is a string that spells the hash of the rest, and
   the window is switched off or the time of signing lies in it.
   */
  lemma VerifiesExactly(data: seq<Field>, rest: seq<Field>, maxAgeMs: int, allow: bool, now: int, mac: Mac)
    requires WellTyped(Obj(data)) && WellTyped(Obj(rest)) && Unsigned(data, rest) && forall t :: |mac(t)| == 32
    ensures VerifyJobPayload(data, maxAgeMs, allow, now, mac) <==>
              && (exists s :: Field(SIGNATURE, Str(s)) in data && Spells(s, mac(Canonical(Obj(rest)))))
              && (maxAgeMs == 0 || Fresh(rest, maxAgeMs, allow, now))
  {
    UnsignedText(data, rest);
    SignatureSpelled(data, mac(Canonical(Obj(rest))));
    FreshRead(rest, maxAgeMs, allow, now);
    hide Canonical, Get, Unhex, Without, Spells, Amount, Unsigned, Fresh;
  }

  /** One signature covers one payload, as far as the hash tells their two texts apart. */
  lemma SignatureBinds(p: seq<Field>, q: seq<Field>, mac: Mac)
    requires WellTyped(Obj(p)) && WellTyped(Obj(q)) && Get(p, SIGNATURE) == Get(q, SIGNATURE)
    requires SignatureAccepted(p, mac) && SignatureAccepted(q, mac)
    requires var s, t := Canonical(Obj(Without(p, SIGNATURE))), Canonical(Obj(Without(q, SIGNATURE)));
             mac(s) == mac(t) ==> s == t
    ensures Alike(Obj(Without(p, SIGNATURE)), Obj(Without(q, SIGNATURE)))
  {
    hide Canonical, Get, Without, Alike;
    WithoutWellTyped(p, SIGNATURE);
    WithoutWellTyped(q, SIGNATURE);
    CanonicalIdentifies(Obj(Without(p, SIGNATURE)), Obj(Without(q, SIGNATURE)));
  }

  /** Data that brings a signature of its own is signed together with it, and then never verifies. */
  lemma OwnSignatureRefused(data: seq<Field>, iat: int, mac: Mac)
    requires WellTyped(Obj(data)) && forall t :: |mac(t)| == 32
    requires var s, t := Canonical(Obj(Without(SignJobPayload(data, iat, mac), SIGNATURE))), Canonical(Obj(Enriched(data, iat)));
             mac(s) == mac(t) ==> s == t
    ensures SignatureAccepted(SignJobPayload(data, iat, mac), mac) <==> Get(data, SIGNATURE) == Undefined
  {
    hide Canonical, Get, Hex, Unhex, Without, Put, Enriched, SignJobPayload, Alike;
    var signed := SignJobPayload(data, iat, mac);
    var e := Enriched(data, iat);
    EnrichedWellTyped(data, iat);
    SignedPayload(data, iat, mac);
    WithoutWellTyped(signed, SIGNATURE);
    CanonicalIdentifies(Obj(Without(signed, SIGNATURE)), Obj(e));
    HexUnhex(mac(Canonical(Obj(e))));
  }
}

/**
 The canonical printer of queue payloads. Texts are sequences of UTF-16 code units, as the
 source language compares and prints them.
 */
module CanonicalJson {
  import opened Outcomes

  type Unit = u: int | 0 <= u < 0x10000
  type Units = seq<Unit>

  /** A finite number is its printed form. */
  datatype Json =
    | Null
    | Bool(value: bool)
    | Number(text: Units)
    | NaN
    | Infinite(positive: bool)
    | Str(units: Units)
    | Undefined
    | Arr(items: seq<Json>)
    | Obj(fields: seq<Field>)

  datatype Field = Field(key: Units, value: Json)

  const QUOTE: Unit := 34
  const PLUS: Unit := 43
  const COMMA: Unit := 44
  const MINUS: Unit := 45
  const POINT: Unit := 46
  const ZERO: Unit := 48
  const NINE: Unit := 57
  const COLON: Unit := 58
  const UPPER_E: Unit := 69
  const OPEN_BRACKET: Unit := 91
  const BACKSLASH: Unit := 92
  const CLOSE_BRACKET: Unit := 93
  const LOWER_A: Unit := 97
  const LOWER_E: Unit := 101
  const LOWER_U: Unit := 117
  const OPEN_BRACE: Unit := 123
  const CLOSE_BRACE: Unit := 125

  const NULL_TEXT: Units := [110, 117, 108, 108]
  const TRUE_TEXT: Units := [116, 114, 117, 101]
  const FALSE_TEXT: Units := [102, 97, 108, 115, 101]

  /** The code units of a text in ASCII. */
  function Ascii(s: string): Units
    requires forall i :: 0 <= i < |s| ==> s[i] < '\U{0080}'
  {
    seq(|s|, i requires 0 <= i < |s| => s[i] as int)
  }

  // ---------------------------------------------------------------- strings

  predicate HighSurrogate(u: Unit) {
    0xD800 <= u < 0xDC00
  }

  predicate LowSurrogate(u: Unit) {
    0xDC00 <= u < 0xE000
  }

  function HexDigit(n: nat): Unit
    requires n < 16
  {
    if n < 10 then ZERO + n else LOWER_A + n - 10
  }

  function Hex4(u: Unit): Units {
    [HexDigit(u / 4096), HexDigit(u / 256 % 16), HexDigit(u / 16 % 16), HexDigit(u % 16)]
  }

  /** The letter of a two-character escape, section 7 of RFC 8259. */
  function ShortEscape(u: Unit): Option<Unit> {
    if u == QUOTE then Some(QUOTE)
    else if u == BACKSLASH then Some(BACKSLASH)
    else if u == 8 then Some(98)
    else if u == 9 then Some(116)
    else if u == 10 then Some(110)
    else if u == 12 then Some(102)
    else if u == 13 then Some(114)
    else None
  }

  function EscapeUnit(u: Unit): Units {
    if ShortEscape(u).Some? then [BACKSLASH, ShortEscape(u).value]
    else if u < 0x20 || HighSurrogate(u) || LowSurrogate(u) then [BACKSLASH, LOWER_U] + Hex4(u)
    else [u]
  }

  /** Surrogate pairs are printed as they are, lone surrogates as escapes. */
  function Escape(s: Units): Units {
    if s == [] then []
    else if HighSurrogate(s[0]) && |s| > 1 && LowSurrogate(s[1]) then [s[0], s[1]] + Escape(s[2..])
    else EscapeUnit(s[0]) + Escape(s[1..])
  }

  function Quote(s: Units): Units {
    [QUOTE] + Escape(s) + [QUOTE]
  }

  // ---------------------------------------------------------------- objects and arrays

  /** The order of strings: by code unit, a proper prefix first. */
  predicate Less(a: Units, b: Units) {
    if b == [] then false
    else if a == [] then true
    else if a[0] != b[0] then a[0] < b[0]
    else Less(a[1..], b[1..])
  }

  function Defined(fields: seq<Field>): (r: seq<Field>)
    ensures forall e :: e in r <==> e in fields && e.value != Undefined
  {
    if fields == [] then []
    else if fields[0].value == Undefined then Defined(fields[1..])
    else [fields[0]] + Defined(fields[1..])
  }

  function Insert(e: Field, sorted: seq<Field>): (r: seq<Field>)
    ensures multiset(r) == multiset(sorted) + multiset{e}
  {
    if sorted == [] || !Less(sorted[0].key, e.key) then
      assert [e] + sorted == [e] + sorted;
      [e] + sorted
    else
      var rest := Insert(e, sorted[1..]);
      assert sorted == [sorted[0]] + sorted[1..];
      [sorted[0]] + rest
  }

  function Sorted(fields: seq<Field>): (r: seq<Field>)
    ensures multiset(r) == multiset(fields)
  {
    if fields == [] then []
    else
      assert fields == [fields[0]] + fields[1..];
      Insert(fields[0], Sorted(fields[1..]))
  }

  function Entries(fields: seq<Field>): (r: seq<Field>)
    ensures forall i :: 0 <= i < |r| ==> r[i] in fields && r[i].value != Undefined
  {
    var r := Sorted(Defined(fields));
    assert forall i :: 0 <= i < |r| ==> r[i] in multiset(r);
    assert forall e :: e in multiset(r) ==> e in Defined(fields);
    r
  }

  function Join(texts: seq<Units>): Units {
    if texts == [] then []
    else if |texts| == 1 then texts[0]
    else texts[0] + [COMMA] + Join(texts[1..])
  }

  function Canonical(v: Json): Units
    decreases v
  {
    match v
    case Null => NULL_TEXT
    case Bool(b) => if b then TRUE_TEXT else FALSE_TEXT
    case Number(text) => text
    case NaN => NULL_TEXT
    case Infinite(_) => NULL_TEXT
    case Str(s) => Quote(s)
    // Joining writes nothing for an undefined item.
    case Undefined => []
    case Arr(items) =>
      [OPEN_BRACKET] + Join(seq(|items|, i requires 0 <= i < |items| => Canonical(items[i]))) + [CLOSE_BRACKET]
    case Obj(fields) =>
      var es := Entries(fields);
      [OPEN_BRACE]
      + Join(seq(|es|, i requires 0 <= i < |es| => Quote(es[i].key) + [COLON] + Canonical(es[i].value)))
      + [CLOSE_BRACE]
  }
}

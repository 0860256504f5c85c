/** The canonical texts themselves, written out: literals, quoted strings, arrays, and objects with their keys in order. */
module CanonicalTexts {
  import opened Outcomes
  import opened CanonicalJson
  import opened CanonicalJsonProof

  lemma LiteralTexts(text: Units, positive: bool)
    ensures Canonical(Null) == Canonical(NaN) == Canonical(Infinite(positive)) == Ascii("null")
    ensures Canonical(Bool(true)) == Ascii("true") && Canonical(Bool(false)) == Ascii("false")
    ensures Canonical(Number(text)) == text && Canonical(Undefined) == Ascii("")
  {
  }

  // ---------------------------------------------------------------- strings

  /** One code unit between quotes, unless it is half of a surrogate pair. */
  ghost function Escaped(u: Unit): Units {
    if u == '\"' as int then Ascii("\\\"")
    else if u == '\\' as int then Ascii("\\\\")
    else if u == 8 then Ascii("\\b")
    else if u == '\t' as int then Ascii("\\t")
    else if u == '\n' as int then Ascii("\\n")
    else if u == 12 then Ascii("\\f")
    else if u == '\r' as int then Ascii("\\r")
    else if u < 32 || 0xD800 <= u < 0xE000 then
      Ascii("\\u") + [Digit(u / 4096), Digit(u / 256 % 16), Digit(u / 16 % 16), Digit(u % 16)]
    else [u]
  }

  ghost function Digit(n: nat): Unit
    requires n < 16
  {
    "0123456789abcdef"[n] as int
  }

  ghost predicate Pair(s: Units) {
    |s| > 1 && 0xD800 <= s[0] < 0xDC00 <= s[1] < 0xE000
  }

  lemma DigitSame(n: nat)
    requires n < 16
    ensures HexDigit(n) == Digit(n)
  {
  }

  lemma EscapedSame(u: Unit)
    ensures EscapeUnit(u) == Escaped(u)
  {
    DigitSame(u / 4096);
    DigitSame(u / 256 % 16);
    DigitSame(u / 16 % 16);
    DigitSame(u % 16);
    hide HexDigit, Digit;
  }

  /** A string is printed unit by unit between quotes; surrogate pairs stay, and each other unit has its escape. */
  lemma StringText(s: Units)
    ensures Canonical(Str(s)) == Ascii("\"") + Escape(s) + Ascii("\"")
    ensures Escape(s) == if s == [] then []
                         else if Pair(s) then s[..2] + Escape(s[2..])
                         else Escaped(s[0]) + Escape(s[1..])
  {
    if s != [] {
      EscapedSame(s[0]);
      hide Escaped, EscapeUnit;
      if Pair(s) {
        assert s[..2] == [s[0], s[1]];
      }
    }
  }

  // ---------------------------------------------------------------- arrays and objects

  /** Every text behind a comma. */
  ghost function Following(texts: seq<Units>): Units {
    if texts == [] then [] else Ascii(",") + texts[0] + Following(texts[1..])
  }

  ghost function Listed(texts: seq<Units>): Units {
    if texts == [] then [] else texts[0] + Following(texts[1..])
  }

  lemma {:induction false} JoinLists(texts: seq<Units>)
    ensures Join(texts) == Listed(texts)
  {
    if |texts| > 1 {
      JoinLists(texts[1..]);
      assert texts[0] + [COMMA] + Join(texts[1..]) == texts[0] + (Ascii(",") + texts[1] + Following(texts[2..]));
      assert texts[1..][1..] == texts[2..];
    } else if |texts| == 1 {
      assert texts[1..] == [];
      assert texts[0] + [] == texts[0];
    }
  }

  lemma ArrayText(items: seq<Json>)
    ensures Canonical(Arr(items)) == Ascii("[") + Listed(seq(|items|, i requires 0 <= i < |items| => Canonical(items[i]))) + Ascii("]")
  {
    ArrText(items, []);
    var texts := seq(|items|, i requires 0 <= i < |items| => Canonical(items[i]));
    assert texts == ItemTexts(items);
    JoinLists(texts);
    hide Join, Listed, Canonical, ItemTexts;
    assert Canonical(Arr(items)) + [] == Canonical(Arr(items));
  }

  /** The first difference decides, and a text comes before those that go on from it. */
  ghost predicate Before(a: Units, b: Units) {
    exists n :: 0 <= n <= |a| && n <= |b| && a[..n] == b[..n] && n < |b| && (n == |a| || a[n] < b[n])
  }

  lemma {:induction false} LessIsBefore(a: Units, b: Units)
    requires Less(a, b)
    ensures Before(a, b)
  {
    if a == [] || a[0] != b[0] {
      assert a[..0] == b[..0];
    } else {
      LessIsBefore(a[1..], b[1..]);
      var n :| && 0 <= n <= |a[1..]| && n <= |b[1..]| && a[1..][..n] == b[1..][..n] && n < |b[1..]|
               && (n == |a[1..]| || a[1..][n] < b[1..][n]);
      assert a[..n + 1] == [a[0]] + a[1..][..n] && b[..n + 1] == [b[0]] + b[1..][..n];
    }
  }

  ghost function KeyValue(e: Field): Units {
    Canonical(Str(e.key)) + Ascii(":") + Canonical(e.value)
  }

  /** An object is printed with its defined fields in the order of their keys. */
  lemma ObjectText(fields: seq<Field>) returns (es: seq<Field>)
    requires DistinctKeys(fields)
    ensures forall e :: e in es <==> e in fields && e.value != Undefined
    ensures forall i, j :: 0 <= i < j < |es| ==> Before(es[i].key, es[j].key)
    ensures Canonical(Obj(fields)) == Ascii("{") + Listed(seq(|es|, i requires 0 <= i < |es| => KeyValue(es[i]))) + Ascii("}")
  {
    es := Entries(fields);
    EntriesComplete(fields);
    EntriesAscend(fields);
    hide Entries, Before;
    forall i, j | 0 <= i < j < |es| ensures Before(es[i].key, es[j].key) {
      LessIsBefore(es[i].key, es[j].key);
    }
    EntriesText(fields, es);
  }

  lemma EntriesText(fields: seq<Field>, es: seq<Field>)
    requires es == Entries(fields)
    ensures Canonical(Obj(fields)) == Ascii("{") + Listed(seq(|es|, i requires 0 <= i < |es| => KeyValue(es[i]))) + Ascii("}")
  {
    ObjText(fields, []);
    SameFields(es);
    JoinLists(FieldTexts(es));
    hide Join, Listed, Canonical, FieldTexts, KeyValue, Entries;
    assert Canonical(Obj(fields)) + [] == Canonical(Obj(fields));
  }

  lemma SameFields(es: seq<Field>)
    ensures seq(|es|, i requires 0 <= i < |es| => KeyValue(es[i])) == FieldTexts(es)
  {
    forall i | 0 <= i < |es| ensures FieldTexts(es)[i] == KeyValue(es[i]) {
      SameField(es[i]);
    }
    hide KeyValue, FieldText;
  }

  lemma SameField(e: Field)
    ensures FieldText(e) == KeyValue(e)
  {
    assert Canonical(Str(e.key)) == Quote(e.key);
    assert [COLON] == Ascii(":");
    hide Quote;
  }
}

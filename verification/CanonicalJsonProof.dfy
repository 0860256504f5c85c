/**
 The canonical text can be read in one way only. Two values have the same text exactly when
 they are alike: equal but for the order and the undefined fields of objects, for numbers
 that are not finite (printed as null), and for `[]` and `[undefined]` (printed alike).
 */
module CanonicalJsonProof {
  import opened Outcomes
  import opened CanonicalJson

  // ---------------------------------------------------------------- values

  predicate NumberUnit(u: Unit) {
    ZERO <= u <= NINE || u in {PLUS, MINUS, POINT, UPPER_E, LOWER_E}
  }

  predicate Numeral(text: Units) {
    && text != [] && (text[0] == MINUS || ZERO <= text[0] <= NINE)
    && forall i :: 0 <= i < |text| ==> NumberUnit(text[i])
  }

  ghost predicate DistinctKeys(fields: seq<Field>) {
    forall i, j :: 0 <= i < j < |fields| ==> fields[i].key != fields[j].key
  }

  /** What every value of the source language satisfies. */
  ghost predicate WellTyped(v: Json)
    decreases v
  {
    match v
    case Number(text) => Numeral(text)
    case Arr(items) => forall i :: 0 <= i < |items| ==> WellTyped(items[i])
    case Obj(fields) => DistinctKeys(fields) && forall i :: 0 <= i < |fields| ==> WellTyped(fields[i].value)
    case _ => true
  }

  predicate NullLike(v: Json) {
    v.Null? || v.NaN? || v.Infinite?
  }

  predicate Blank(items: seq<Json>) {
    items == [] || items == [Undefined]
  }

  ghost predicate DefinedKey(fields: seq<Field>, key: Units) {
    exists i :: 0 <= i < |fields| && fields[i].key == key && fields[i].value != Undefined
  }

  ghost predicate Alike(a: Json, b: Json)
    decreases a
  {
    match a
    case Arr(items) =>
      b.Arr? && ((|items| == |b.items| && forall i :: 0 <= i < |items| ==> Alike(items[i], b.items[i]))
                 || (Blank(items) && Blank(b.items)))
    case Obj(fields) =>
      && b.Obj?
      && (forall k :: DefinedKey(fields, k) <==> DefinedKey(b.fields, k))
      && forall i, j | 0 <= i < |fields| && 0 <= j < |b.fields| ::
           fields[i].key == b.fields[j].key && fields[i].value != Undefined && b.fields[j].value != Undefined
           ==> Alike(fields[i].value, b.fields[j].value)
    case _ => a == b || (NullLike(a) && NullLike(b))
  }

  // ---------------------------------------------------------------- strings

  function HexValue(u: Unit): Option<nat> {
    if ZERO <= u <= NINE then Some(u - ZERO) else if LOWER_A <= u < LOWER_A + 6 then Some(u - LOWER_A + 10) else None
  }

  function Unescaped(u: Unit): Unit {
    if u == 98 then 8 else if u == 116 then 9 else if u == 110 then 10 else if u == 102 then 12
    else if u == 114 then 13 else u
  }

  function Prepend(u: Unit, r: Option<(Units, Units)>): Option<(Units, Units)> {
    if r.None? then None else Some(([u] + r.value.0, r.value.1))
  }

  /** Reads a string up to its closing quote, and returns what follows it. */
  function Unescape(t: Units): Option<(Units, Units)> {
    if t == [] then None
    else if t[0] == QUOTE then Some(([], t[1..]))
    else if t[0] != BACKSLASH then Prepend(t[0], Unescape(t[1..]))
    else if |t| < 2 then None
    else if t[1] != LOWER_U then Prepend(Unescaped(t[1]), Unescape(t[2..]))
    else if |t| < 6 || HexValue(t[2]).None? || HexValue(t[3]).None? || HexValue(t[4]).None? || HexValue(t[5]).None? then None
    else
      var u := HexValue(t[2]).value * 4096 + HexValue(t[3]).value * 256 + HexValue(t[4]).value * 16 + HexValue(t[5]).value;
      Prepend(u, Unescape(t[6..]))
  }

  lemma UnescapeRaw(u: Unit, t: Units)
    requires u != QUOTE && u != BACKSLASH
    ensures Unescape([u] + t) == Prepend(u, Unescape(t))
  {
    assert ([u] + t)[1..] == t;
  }

  lemma UnescapeShort(c: Unit, t: Units)
    requires c != LOWER_U
    ensures Unescape([BACKSLASH, c] + t) == Prepend(Unescaped(c), Unescape(t))
  {
    assert ([BACKSLASH, c] + t)[2..] == t;
  }

  lemma HexRoundTrip(u: Unit)
    ensures u / 4096 < 16
    ensures (u / 4096) * 4096 + (u / 256 % 16) * 256 + (u / 16 % 16) * 16 + u % 16 == u
    ensures forall n: nat | n < 16 :: HexValue(HexDigit(n)) == Some(n)
  {
  }

  lemma UnescapeHex(u: Unit, t: Units)
    ensures Unescape([BACKSLASH, LOWER_U] + Hex4(u) + t) == Prepend(u, Unescape(t))
  {
    HexRoundTrip(u);
    hide HexValue, HexDigit, Unescaped;
    var s := [BACKSLASH, LOWER_U] + Hex4(u) + t;
    assert s[0] == BACKSLASH && s[1] == LOWER_U;
    assert s[2] == Hex4(u)[0] && s[3] == Hex4(u)[1] && s[4] == Hex4(u)[2] && s[5] == Hex4(u)[3];
    assert s[6..] == t;
  }

  lemma UnescapeUnit(u: Unit, t: Units)
    ensures Unescape(EscapeUnit(u) + t) == Prepend(u, Unescape(t))
  {
    hide Unescape, Hex4;
    if ShortEscape(u).Some? {
      UnescapeShort(ShortEscape(u).value, t);
    } else if u < 0x20 || HighSurrogate(u) || LowSurrogate(u) {
      UnescapeHex(u, t);
    } else {
      UnescapeRaw(u, t);
    }
  }

  /** An escaped string is read back as it was, whatever follows its closing quote. */
  lemma {:induction false} UnescapeEscape(s: Units, rest: Units)
    ensures Unescape(Escape(s) + ([QUOTE] + rest)) == Some((s, rest))
  {
    hide Unescape, EscapeUnit;
    var t := [QUOTE] + rest;
    if s == [] {
      UnescapeEnd(rest);
      assert Escape(s) + t == t;
    } else if HighSurrogate(s[0]) && |s| > 1 && LowSurrogate(s[1]) {
      UnescapeEscape(s[2..], rest);
      var tail := Escape(s[2..]) + t;
      assert Escape(s) + t == [s[0]] + ([s[1]] + tail);
      UnescapeRaw(s[0], [s[1]] + tail);
      UnescapeRaw(s[1], tail);
      assert s == [s[0]] + ([s[1]] + s[2..]);
    } else {
      UnescapeEscape(s[1..], rest);
      var tail := Escape(s[1..]) + t;
      assert Escape(s) + t == EscapeUnit(s[0]) + tail;
      UnescapeUnit(s[0], tail);
      assert s == [s[0]] + s[1..];
    }
  }

  lemma UnescapeEnd(rest: Units)
    ensures Unescape([QUOTE] + rest) == Some(([], rest))
  {
    assert ([QUOTE] + rest)[1..] == rest;
  }

  lemma QuoteUnambiguous(s: Units, s': Units, r: Units, r': Units)
    requires Quote(s) + r == Quote(s') + r'
    ensures s == s' && r == r'
  {
    forall x: Units, y: Units ensures (Quote(x) + y)[1..] == Escape(x) + ([QUOTE] + y) {
      assert Quote(x) + y == [QUOTE] + (Escape(x) + ([QUOTE] + y));
    }
    UnescapeEscape(s, r);
    UnescapeEscape(s', r');
  }

  // ---------------------------------------------------------------- numbers

  predicate Delimited(r: Units) {
    r == [] || r[0] in {COMMA, CLOSE_BRACKET, CLOSE_BRACE}
  }

  /** How many number units a text starts with. */
  function NumberRun(t: Units): nat {
    if t == [] || !NumberUnit(t[0]) then 0 else 1 + NumberRun(t[1..])
  }

  lemma {:induction false} RunOfNumeral(a: Units, r: Units)
    requires (forall i :: 0 <= i < |a| ==> NumberUnit(a[i])) && Delimited(r)
    ensures NumberRun(a + r) == |a|
  {
    if a == [] {
      assert a + r == r;
    } else {
      RunOfNumeral(a[1..], r);
      assert (a + r)[1..] == a[1..] + r;
    }
  }

  lemma NumeralUnambiguous(a: Units, b: Units, r: Units, q: Units)
    requires Numeral(a) && Numeral(b) && Delimited(r) && Delimited(q) && a + r == b + q
    ensures a == b && r == q
  {
    RunOfNumeral(a, r);
    RunOfNumeral(b, q);
    assert a == (a + r)[..|a|] && b == (b + q)[..|b|];
    assert r == (a + r)[|a|..] && q == (b + q)[|b|..];
  }

  // ---------------------------------------------------------------- lists of texts

  function ItemTexts(items: seq<Json>): seq<Units> {
    seq(|items|, i requires 0 <= i < |items| => Canonical(items[i]))
  }

  function FieldText(e: Field): Units {
    Quote(e.key) + [COLON] + Canonical(e.value)
  }

  function FieldTexts(es: seq<Field>): seq<Units> {
    seq(|es|, i requires 0 <= i < |es| => FieldText(es[i]))
  }

  lemma Bracketed(open: Unit, middle: Units, close: Unit, r: Units)
    ensures [open] + middle + [close] + r == [open] + (middle + ([close] + r))
  {
  }

  lemma ArrText(items: seq<Json>, r: Units)
    ensures Canonical(Arr(items)) + r == [OPEN_BRACKET] + (Join(ItemTexts(items)) + ([CLOSE_BRACKET] + r))
  {
    hide Join;
    assert ItemTexts(items) == seq(|items|, i requires 0 <= i < |items| => Canonical(items[i]));
    Bracketed(OPEN_BRACKET, Join(ItemTexts(items)), CLOSE_BRACKET, r);
  }

  lemma ObjText(fields: seq<Field>, r: Units)
    ensures Canonical(Obj(fields)) + r == [OPEN_BRACE] + (Join(FieldTexts(Entries(fields))) + ([CLOSE_BRACE] + r))
  {
    hide Join, Entries, Quote;
    var es := Entries(fields);
    assert FieldTexts(es)
        == seq(|es|, i requires 0 <= i < |es| => Quote(es[i].key) + [COLON] + Canonical(es[i].value));
    Bracketed(OPEN_BRACE, Join(FieldTexts(es)), CLOSE_BRACE, r);
  }

  /** What follows the first text of a list. */
  function After(texts: seq<Units>, r: Units): Units
    requires texts != []
  {
    if |texts| == 1 then r else [COMMA] + (Join(texts[1..]) + r)
  }

  lemma Associates(a: Units, b: Units, c: Units, d: Units)
    ensures a + b + c + d == a + (b + (c + d))
  {
  }

  lemma JoinFirst(texts: seq<Units>, r: Units)
    requires texts != []
    ensures Join(texts) + r == texts[0] + After(texts, r)
  {
    if |texts| > 1 {
      Associates(texts[0], [COMMA], Join(texts[1..]), r);
    }
    hide Join;
  }

  lemma Peel(x: Unit, s: Units, y: Unit, t: Units)
    requires [x] + s == [y] + t
    ensures x == y && s == t
  {
    assert ([x] + s)[0] == x && ([y] + t)[0] == y;
    assert ([x] + s)[1..] == s && ([y] + t)[1..] == t;
  }

  // ---------------------------------------------------------------- kinds

  datatype Kind = NullKind | TrueKind | FalseKind | NumberKind | StringKind | ArrayKind | ObjectKind | NoKind

  function KindOf(v: Json): Kind {
    match v
    case Bool(b) => if b then TrueKind else FalseKind
    case Number(_) => NumberKind
    case Str(_) => StringKind
    case Undefined => NoKind
    case Arr(_) => ArrayKind
    case Obj(_) => ObjectKind
    case _ => NullKind
  }

  function KindAt(u: Unit): Kind {
    if u == NULL_TEXT[0] then NullKind
    else if u == TRUE_TEXT[0] then TrueKind
    else if u == FALSE_TEXT[0] then FalseKind
    else if u == QUOTE then StringKind
    else if u == OPEN_BRACKET then ArrayKind
    else if u == OPEN_BRACE then ObjectKind
    else if NumberUnit(u) then NumberKind
    else NoKind
  }

  /** The first unit of a text tells what it is the text of. */
  lemma FirstUnit(v: Json, r: Units)
    requires WellTyped(v) && Delimited(r)
    ensures if v.Undefined? then Canonical(v) + r == r
            else Canonical(v) != [] && (Canonical(v) + r)[0] == Canonical(v)[0] && KindAt(Canonical(v)[0]) == KindOf(v)
  {
    match v
    case Arr(items) => ArrText(items, []);
      assert Canonical(v) + [] == Canonical(v);
    case Obj(fields) => ObjText(fields, []);
      assert Canonical(v) + [] == Canonical(v);
    case _ =>
  }

  lemma SameKind(a: Json, b: Json, r: Units, q: Units)
    requires WellTyped(a) && WellTyped(b) && Delimited(r) && Delimited(q)
    requires Canonical(a) + r == Canonical(b) + q
    ensures KindOf(a) == KindOf(b)
  {
    hide Canonical, WellTyped;
    FirstUnit(a, r);
    FirstUnit(b, q);
    assert Delimited(r) && r != [] ==> KindAt(r[0]) == NoKind;
    assert Delimited(q) && q != [] ==> KindAt(q[0]) == NoKind;
  }

  // ---------------------------------------------------------------- one reading

  /** Equal keys and alike values, entry by entry. */
  ghost predicate Matching(es: seq<Field>, ds: seq<Field>) {
    |es| == |ds| && forall i :: 0 <= i < |es| ==> es[i].key == ds[i].key && Alike(es[i].value, ds[i].value)
  }

  ghost predicate AlikeItems(xs: seq<Json>, ys: seq<Json>) {
    |xs| == |ys| && forall i :: 0 <= i < |xs| ==> Alike(xs[i], ys[i])
  }

  /** A text is the text of alike values only, and where it ends can be seen. */
  lemma {:induction false} Unambiguous(a: Json, b: Json, r: Units, q: Units)
    requires WellTyped(a) && WellTyped(b) && Delimited(r) && Delimited(q)
    requires Canonical(a) + r == Canonical(b) + q
    ensures Alike(a, b) && r == q
    decreases a, 1, 0
  {
    SameKind(a, b, r, q);
    match a
    case Number(_) => NumeralUnambiguous(a.text, b.text, r, q);
    case Str(_) => QuoteUnambiguous(a.units, b.units, r, q);
    case Arr(_) => ArraysUnambiguous(a, b, r, q);
    case Obj(_) => ObjectsUnambiguous(a, b, r, q);
    case _ =>
      assert r == (Canonical(a) + r)[|Canonical(a)|..] && q == (Canonical(b) + q)[|Canonical(b)|..];
  }

  lemma {:induction false} ArraysUnambiguous(a: Json, b: Json, r: Units, q: Units)
    requires a.Arr? && b.Arr? && WellTyped(a) && WellTyped(b) && Canonical(a) + r == Canonical(b) + q
    ensures Alike(a, b) && r == q
    decreases a, 0, |a.items| + 1
  {
    var r', q' := [CLOSE_BRACKET] + r, [CLOSE_BRACKET] + q;
    ArrText(a.items, r);
    ArrText(b.items, q);
    hide Canonical;
    Peel(OPEN_BRACKET, Join(ItemTexts(a.items)) + r', OPEN_BRACKET, Join(ItemTexts(b.items)) + q');
    if a.items == [] {
      EmptyItems(b.items, r', q');
    } else if b.items == [] {
      EmptyItems(a.items, q', r');
    } else {
      assert a.items[0..] == a.items;
      ItemsUnambiguous(a, 0, b.items, r', q');
    }
    Peel(CLOSE_BRACKET, r, CLOSE_BRACKET, q);
  }

  lemma {:induction false} ObjectsUnambiguous(a: Json, b: Json, r: Units, q: Units)
    requires a.Obj? && b.Obj? && WellTyped(a) && WellTyped(b) && Canonical(a) + r == Canonical(b) + q
    ensures Alike(a, b) && r == q
    decreases a, 0, |Entries(a.fields)| + 1
  {
    var r', q' := [CLOSE_BRACE] + r, [CLOSE_BRACE] + q;
    var es, ds := Entries(a.fields), Entries(b.fields);
    ObjText(a.fields, r);
    ObjText(b.fields, q);
    hide Canonical;
    Peel(OPEN_BRACE, Join(FieldTexts(es)) + r', OPEN_BRACE, Join(FieldTexts(ds)) + q');
    FieldsUnambiguous(a, es, ds, r', q');
    Peel(CLOSE_BRACE, r, CLOSE_BRACE, q);
    MatchingIsAlike(a.fields, b.fields);
  }

  /** The text of an empty list is shared with the list of one undefined item, and with no other. */
  lemma EmptyItems(ys: seq<Json>, r: Units, q: Units)
    requires forall i :: 0 <= i < |ys| ==> WellTyped(ys[i])
    requires r != [] && r[0] == CLOSE_BRACKET && q != [] && q[0] == CLOSE_BRACKET
    requires r == Join(ItemTexts(ys)) + q
    ensures Blank(ys) && r == q
  {
    hide Canonical;
    if ys != [] {
      var rest := After(ItemTexts(ys), q);
      JoinFirst(ItemTexts(ys), q);
      FirstUnit(ys[0], rest);
    }
  }

  lemma {:induction false} ItemsUnambiguous(a: Json, n: nat, ys: seq<Json>, r: Units, q: Units)
    requires a.Arr? && n < |a.items| && ys != []
    requires WellTyped(a) && forall i :: 0 <= i < |ys| ==> WellTyped(ys[i])
    requires r != [] && r[0] == CLOSE_BRACKET && q != [] && q[0] == CLOSE_BRACKET
    requires Join(ItemTexts(a.items[n..])) + r == Join(ItemTexts(ys)) + q
    ensures AlikeItems(a.items[n..], ys) && r == q
    decreases a, 0, |a.items| - n
  {
    hide Canonical, Alike;
    var xs := a.items[n..];
    var xts, yts := ItemTexts(xs), ItemTexts(ys);
    JoinFirst(xts, r);
    JoinFirst(yts, q);
    Unambiguous(a.items[n], ys[0], After(xts, r), After(yts, q));
    assert |xs| == 1 <==> |ys| == 1;
    if |xs| > 1 {
      Peel(COMMA, Join(xts[1..]) + r, COMMA, Join(yts[1..]) + q);
      assert xts[1..] == ItemTexts(a.items[n + 1..]) && yts[1..] == ItemTexts(ys[1..]);
      ItemsUnambiguous(a, n + 1, ys[1..], r, q);
      assert forall i :: 1 <= i < |xs| ==> xs[i] == a.items[n + 1..][i - 1] && ys[i] == ys[1..][i - 1];
    }
  }

  lemma FieldTextRest(e: Field, rest: Units)
    ensures FieldText(e) + rest == Quote(e.key) + ([COLON] + (Canonical(e.value) + rest))
  {
  }

  lemma StartsLikeFields(es: seq<Field>, r: Units)
    requires r != []
    ensures (Join(FieldTexts(es)) + r)[0] == if es == [] then r[0] else QUOTE
    ensures es == [] ==> Join(FieldTexts(es)) + r == r
  {
    if es != [] {
      JoinFirst(FieldTexts(es), r);
      FieldTextRest(es[0], After(FieldTexts(es), r));
    }
  }

  lemma {:induction false} FieldsUnambiguous(a: Json, es: seq<Field>, ds: seq<Field>, r: Units, q: Units)
    requires a.Obj? && forall i :: 0 <= i < |es| ==> es[i] in a.fields
    requires forall i :: 0 <= i < |es| ==> WellTyped(es[i].value)
    requires forall i :: 0 <= i < |ds| ==> WellTyped(ds[i].value)
    requires r != [] && r[0] == CLOSE_BRACE && q != [] && q[0] == CLOSE_BRACE
    requires Join(FieldTexts(es)) + r == Join(FieldTexts(ds)) + q
    ensures Matching(es, ds) && r == q
    decreases a, 0, |es|
  {
    hide Canonical, Alike, WellTyped, Escape;
    var ets, dts := FieldTexts(es), FieldTexts(ds);
    StartsLikeFields(es, r);
    StartsLikeFields(ds, q);
    assert es == [] <==> ds == [];
    if es != [] {
      var er, dr := After(ets, r), After(dts, q);
      JoinFirst(ets, r);
      JoinFirst(dts, q);
      FieldTextRest(es[0], er);
      FieldTextRest(ds[0], dr);
      QuoteUnambiguous(es[0].key, ds[0].key, [COLON] + (Canonical(es[0].value) + er), [COLON] + (Canonical(ds[0].value) + dr));
      Peel(COLON, Canonical(es[0].value) + er, COLON, Canonical(ds[0].value) + dr);
      Unambiguous(es[0].value, ds[0].value, er, dr);
      assert |es| == 1 <==> |ds| == 1;
      if |es| > 1 {
        Peel(COMMA, Join(ets[1..]) + r, COMMA, Join(dts[1..]) + q);
        assert ets[1..] == FieldTexts(es[1..]) && dts[1..] == FieldTexts(ds[1..]);
        FieldsUnambiguous(a, es[1..], ds[1..], r, q);
        assert forall i :: 1 <= i < |es| ==> es[i] == es[1..][i - 1];
        assert forall i :: 1 <= i < |ds| ==> ds[i] == ds[1..][i - 1];
      }
    }
  }

  // ---------------------------------------------------------------- entries

  lemma EntriesComplete(fields: seq<Field>)
    ensures forall e :: e in Entries(fields) <==> e in fields && e.value != Undefined
  {
    var r := Entries(fields);
    assert forall e :: e in r <==> e in multiset(r);
    assert forall e :: e in Defined(fields) <==> e in multiset(Defined(fields));
  }

  lemma KeyDetermines(fields: seq<Field>, e: Field, d: Field)
    requires DistinctKeys(fields) && e in fields && d in fields && e.key == d.key
    ensures e == d
  {
  }

  /** Matching entries make alike objects. */
  lemma MatchingIsAlike(fs: seq<Field>, gs: seq<Field>)
    requires DistinctKeys(fs) && DistinctKeys(gs) && Matching(Entries(fs), Entries(gs))
    ensures Alike(Obj(fs), Obj(gs))
  {
    hide Entries;
    var es, ds := Entries(fs), Entries(gs);
    EntriesComplete(fs);
    EntriesComplete(gs);
    forall k ensures DefinedKey(fs, k) <==> DefinedKey(gs, k) {
      KeyOfEntry(fs, es, k);
      KeyOfEntry(gs, ds, k);
      assert (exists i :: 0 <= i < |es| && es[i].key == k) <==> (exists i :: 0 <= i < |ds| && ds[i].key == k);
    }
    forall i, j | 0 <= i < |fs| && 0 <= j < |gs| && fs[i].key == gs[j].key && fs[i].value != Undefined
                  && gs[j].value != Undefined
      ensures Alike(fs[i].value, gs[j].value)
    {
      var p :| 0 <= p < |es| && es[p] == fs[i];
      assert ds[p] in gs && gs[j] in gs;
      KeyDetermines(gs, ds[p], gs[j]);
    }
  }

  lemma KeyOfEntry(fields: seq<Field>, es: seq<Field>, k: Units)
    requires forall e :: e in es <==> e in fields && e.value != Undefined
    ensures DefinedKey(fields, k) <==> exists i :: 0 <= i < |es| && es[i].key == k
  {
    if DefinedKey(fields, k) {
      var i :| 0 <= i < |fields| && fields[i].key == k && fields[i].value != Undefined;
      assert fields[i] in es;
    }
    if exists i :: 0 <= i < |es| && es[i].key == k {
      var i :| 0 <= i < |es| && es[i].key == k;
      assert es[i] in fields;
    }
  }

  ghost predicate Ascending(es: seq<Field>) {
    forall i, j :: 0 <= i < j < |es| ==> Less(es[i].key, es[j].key)
  }

  lemma {:induction false} LessTotal(a: Units, b: Units)
    ensures !(Less(a, b) && Less(b, a))
    ensures a != b <==> Less(a, b) || Less(b, a)
  {
    if a != [] && b != [] && a[0] == b[0] {
      LessTotal(a[1..], b[1..]);
      assert a == [a[0]] + a[1..] && b == [b[0]] + b[1..];
    }
  }

  lemma {:induction false} LessTransitive(a: Units, b: Units, c: Units)
    requires Less(a, b) && Less(b, c)
    ensures Less(a, c)
  {
    if a != [] && a[0] == b[0] && b[0] == c[0] {
      LessTransitive(a[1..], b[1..], c[1..]);
    }
  }

  lemma {:induction false} InsertAscends(e: Field, es: seq<Field>)
    requires Ascending(es) && forall i :: 0 <= i < |es| ==> es[i].key != e.key
    ensures Ascending(Insert(e, es))
  {
    if es == [] {
    } else if !Less(es[0].key, e.key) {
      LessTotal(es[0].key, e.key);
      forall j | 0 <= j < |es| ensures Less(e.key, es[j].key) {
        if j > 0 { LessTransitive(e.key, es[0].key, es[j].key); }
      }
    } else {
      InsertAscends(e, es[1..]);
      var rest := Insert(e, es[1..]);
      forall j | 0 <= j < |rest| ensures Less(es[0].key, rest[j].key) {
        assert rest[j] in multiset(rest);
        assert rest[j] == e || rest[j] in es[1..];
      }
    }
  }

  lemma {:induction false} SortedAscends(fields: seq<Field>)
    requires DistinctKeys(fields)
    ensures Ascending(Sorted(fields))
  {
    if fields != [] {
      var rest := fields[1..];
      SortedAscends(rest);
      forall i | 0 <= i < |Sorted(rest)| ensures Sorted(rest)[i].key != fields[0].key {
        assert Sorted(rest)[i] in multiset(Sorted(rest));
        assert Sorted(rest)[i] in rest;
      }
      InsertAscends(fields[0], Sorted(rest));
    }
  }

  lemma {:induction false} DefinedDistinct(fields: seq<Field>)
    requires DistinctKeys(fields)
    ensures DistinctKeys(Defined(fields))
  {
    if fields != [] {
      DefinedDistinct(fields[1..]);
      forall e | e in Defined(fields[1..]) ensures e.key != fields[0].key {
        assert e in fields[1..];
      }
    }
  }

  lemma EntriesAscend(fields: seq<Field>)
    requires DistinctKeys(fields)
    ensures Ascending(Entries(fields))
  {
    DefinedDistinct(fields);
    SortedAscends(Defined(fields));
  }

  ghost predicate HasKey(es: seq<Field>, k: Units) {
    exists i :: 0 <= i < |es| && es[i].key == k
  }

  /** Ascending entries are determined by their keys, so any sorting of distinct keys is this one. */
  lemma {:induction false} KeysDetermine(es: seq<Field>, ds: seq<Field>)
    requires Ascending(es) && Ascending(ds) && forall k :: HasKey(es, k) <==> HasKey(ds, k)
    ensures |es| == |ds| && forall i :: 0 <= i < |es| ==> es[i].key == ds[i].key
  {
    if es == [] {
      assert ds != [] ==> HasKey(ds, ds[0].key);
    } else {
      FirstKey(es, ds);
      FirstKey(ds, es);
      LessTotal(es[0].key, ds[0].key);
      forall k ensures HasKey(es[1..], k) <==> HasKey(ds[1..], k) {
        KeyOfRest(es, k);
        KeyOfRest(ds, k);
      }
      KeysDetermine(es[1..], ds[1..]);
      assert forall i :: 1 <= i < |es| ==> es[i] == es[1..][i - 1] && ds[i] == ds[1..][i - 1];
    }
  }

  lemma FirstKey(es: seq<Field>, ds: seq<Field>)
    requires Ascending(ds) && es != [] && forall k :: HasKey(es, k) ==> HasKey(ds, k)
    ensures ds != [] && (es[0].key == ds[0].key || Less(ds[0].key, es[0].key))
  {
    assert HasKey(es, es[0].key);
    var j :| 0 <= j < |ds| && ds[j].key == es[0].key;
  }

  lemma KeyOfRest(es: seq<Field>, k: Units)
    requires es != [] && Ascending(es)
    ensures HasKey(es[1..], k) <==> HasKey(es, k) && k != es[0].key
  {
    if HasKey(es, k) && k != es[0].key {
      var i :| 0 <= i < |es| && es[i].key == k;
      assert es[1..][i - 1].key == k;
    }
    if HasKey(es[1..], k) {
      var i :| 0 <= i < |es[1..]| && es[1..][i].key == k;
      assert es[i + 1].key == k;
      LessTotal(es[0].key, k);
    }
  }

  /** Alike objects have matching entries. */
  lemma AlikeMatches(fs: seq<Field>, gs: seq<Field>)
    requires DistinctKeys(fs) && DistinctKeys(gs) && Alike(Obj(fs), Obj(gs))
    ensures Matching(Entries(fs), Entries(gs))
  {
    hide Entries;
    var es, ds := Entries(fs), Entries(gs);
    EntriesComplete(fs);
    EntriesComplete(gs);
    EntriesAscend(fs);
    EntriesAscend(gs);
    forall k ensures HasKey(es, k) <==> HasKey(ds, k) {
      KeyOfEntry(fs, es, k);
      KeyOfEntry(gs, ds, k);
      assert DefinedKey(fs, k) <==> DefinedKey(gs, k);
    }
    KeysDetermine(es, ds);
    forall i | 0 <= i < |es| ensures Alike(es[i].value, ds[i].value) {
      assert es[i] in fs && ds[i] in gs;
    }
  }

  /** Alike values have one text. */
  lemma {:induction false} AlikeSameText(a: Json, b: Json)
    requires WellTyped(a) && WellTyped(b) && Alike(a, b)
    ensures Canonical(a) == Canonical(b)
    decreases a
  {
    match a
    case Arr(_) =>
      if |a.items| == |b.items| && forall i :: 0 <= i < |a.items| ==> Alike(a.items[i], b.items[i]) {
        forall i | 0 <= i < |a.items| ensures Canonical(a.items[i]) == Canonical(b.items[i]) {
          AlikeSameText(a.items[i], b.items[i]);
        }
      }
      SameItems(a.items, b.items);
    case Obj(_) =>
      var es, ds := Entries(a.fields), Entries(b.fields);
      AlikeMatches(a.fields, b.fields);
      forall i | 0 <= i < |es| ensures Canonical(es[i].value) == Canonical(ds[i].value) {
        assert es[i] in a.fields && ds[i] in b.fields;
        AlikeSameText(es[i].value, ds[i].value);
      }
      SameFields(a.fields, b.fields);
    case _ =>
  }

  lemma SameItems(xs: seq<Json>, ys: seq<Json>)
    requires (Blank(xs) && Blank(ys))
             || (|xs| == |ys| && forall i :: 0 <= i < |xs| ==> Canonical(xs[i]) == Canonical(ys[i]))
    ensures Canonical(Arr(xs)) == Canonical(Arr(ys))
  {
    if Blank(xs) && Blank(ys) {
      BlankText(xs);
      BlankText(ys);
    } else {
      assert ItemTexts(xs) == ItemTexts(ys);
    }
    hide Canonical, ItemTexts;
    ArrText(xs, []);
    ArrText(ys, []);
    NothingAfter(Canonical(Arr(xs)));
    NothingAfter(Canonical(Arr(ys)));
  }

  lemma SameFields(fs: seq<Field>, gs: seq<Field>)
    requires var es, ds := Entries(fs), Entries(gs);
             && Matching(es, ds)
             && forall i :: 0 <= i < |es| ==> Canonical(es[i].value) == Canonical(ds[i].value)
    ensures Canonical(Obj(fs)) == Canonical(Obj(gs))
  {
    hide Canonical, Alike, Entries, Quote;
    assert FieldTexts(Entries(fs)) == FieldTexts(Entries(gs));
    ObjText(fs, []);
    ObjText(gs, []);
    NothingAfter(Canonical(Obj(fs)));
    NothingAfter(Canonical(Obj(gs)));
  }

  lemma NothingAfter(t: Units)
    ensures t + [] == t
  {
  }

  lemma BlankText(items: seq<Json>)
    requires Blank(items)
    ensures Join(ItemTexts(items)) == []
  {
  }

  /** The canonical text identifies a value up to likeness: no less and no more. */
  lemma CanonicalIdentifies(a: Json, b: Json)
    requires WellTyped(a) && WellTyped(b)
    ensures Canonical(a) == Canonical(b) <==> Alike(a, b)
  {
    if Canonical(a) == Canonical(b) {
      Unambiguous(a, b, [], []);
    }
    if Alike(a, b) {
      AlikeSameText(a, b);
    }
  }

  // ---------------------------------------------------------------- JSON values

  /** Values that survive a JSON text: finite numbers, and nothing undefined except as a field. */
  ghost predicate JsonValue(v: Json)
    decreases v
  {
    match v
    case NaN => false
    case Infinite(_) => false
    case Undefined => false
    case Arr(items) => forall i :: 0 <= i < |items| ==> JsonValue(items[i])
    case Obj(fields) => forall i :: 0 <= i < |fields| ==> fields[i].value == Undefined || JsonValue(fields[i].value)
    case _ => true
  }

  /** Equality up to the order of keys and up to undefined fields. */
  ghost predicate SameValue(a: Json, b: Json)
    decreases a
  {
    match a
    case Arr(items) => b.Arr? && |items| == |b.items| && forall i :: 0 <= i < |items| ==> SameValue(items[i], b.items[i])
    case Obj(fields) =>
      && b.Obj?
      && (forall k :: DefinedKey(fields, k) <==> DefinedKey(b.fields, k))
      && forall i, j | 0 <= i < |fields| && 0 <= j < |b.fields| ::
           fields[i].key == b.fields[j].key && fields[i].value != Undefined && b.fields[j].value != Undefined
           ==> SameValue(fields[i].value, b.fields[j].value)
    case _ => a == b
  }

  lemma NoBlanks(items: seq<Json>)
    requires forall i :: 0 <= i < |items| ==> JsonValue(items[i])
    ensures Blank(items) <==> items == []
  {
    assert items != [] ==> JsonValue(items[0]);
  }

  lemma {:induction false} LikenessOfJson(a: Json, b: Json)
    requires JsonValue(a) && JsonValue(b)
    ensures Alike(a, b) <==> SameValue(a, b)
    decreases a
  {
    match a
    case Arr(items) =>
      NoBlanks(items);
      if b.Arr? {
        NoBlanks(b.items);
      }
      if b.Arr? && |items| == |b.items| {
        forall i | 0 <= i < |items| ensures Alike(items[i], b.items[i]) <==> SameValue(items[i], b.items[i]) {
          LikenessOfJson(items[i], b.items[i]);
        }
      }
    case Obj(fields) =>
      if b.Obj? {
        forall i, j | 0 <= i < |fields| && 0 <= j < |b.fields| && fields[i].value != Undefined && b.fields[j].value != Undefined
          ensures Alike(fields[i].value, b.fields[j].value) <==> SameValue(fields[i].value, b.fields[j].value)
        {
          LikenessOfJson(fields[i].value, b.fields[j].value);
        }
      }
    case _ =>
  }

  /** On JSON values the printer is injective up to key order and undefined fields. */
  lemma CanonicalInjective(a: Json, b: Json)
    requires WellTyped(a) && WellTyped(b) && JsonValue(a) && JsonValue(b)
    ensures Canonical(a) == Canonical(b) <==> SameValue(a, b)
  {
    CanonicalIdentifies(a, b);
    LikenessOfJson(a, b);
  }

  /** Outside of them it is not: an undefined item vanishes, and a number that is not finite reads as null. */
  lemma CanonicalCollides()
    ensures Canonical(Arr([])) == Canonical(Arr([Undefined])) && !SameValue(Arr([]), Arr([Undefined]))
    ensures Canonical(Arr([NaN])) == Canonical(Arr([Null])) && !SameValue(Arr([NaN]), Arr([Null]))
  {
    SameItems([], [Undefined]);
    SameItems([NaN], [Null]);
    assert !SameValue([NaN][0], [Null][0]);
  }
}

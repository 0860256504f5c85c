/** The few text operations of the source language that the cores rely on. */
module Text {

  /** White space and line terminators, as `trim` removes them. */
  predicate IsSpace(c: char) {
    '\t' <= c <= '\r' || c == ' ' || c == '\U{00A0}' || c == '\U{1680}' || '\U{2000}' <= c <= '\U{200A}'
    || c == '\U{2028}' || c == '\U{2029}' || c == '\U{202F}' || c == '\U{205F}' || c == '\U{3000}' || c == '\U{FEFF}'
  }

  function TrimStart(s: string): string {
    if s != "" && IsSpace(s[0]) then TrimStart(s[1..]) else s
  }

  function TrimEnd(s: string): string {
    if s != "" && IsSpace(s[|s| - 1]) then TrimEnd(s[..|s| - 1]) else s
  }

  function Trim(s: string): string {
    TrimEnd(TrimStart(s))
  }

  predicate IsTrimmed(s: string) {
    s == "" || (!IsSpace(s[0]) && !IsSpace(s[|s| - 1]))
  }

  /** Trimming leaves exactly the texts that neither start nor end with white space. */
  lemma TrimFixed(s: string)
    ensures Trim(s) == s <==> IsTrimmed(s)
  {
    TrimStartShrinks(s);
    TrimEndShrinks(TrimStart(s));
  }

  /** Trimming a trimmed text changes nothing. */
  lemma TrimIdempotent(s: string)
    ensures Trim(Trim(s)) == Trim(s)
  {
    TrimStartClean(s);
    TrimEndClean(TrimStart(s));
    TrimFixed(Trim(s));
  }

  lemma {:induction false} TrimStartClean(s: string)
    ensures TrimStart(s) == "" || !IsSpace(TrimStart(s)[0])
  {
    if s != "" && IsSpace(s[0]) {
      TrimStartClean(s[1..]);
    }
  }

  lemma {:induction false} TrimEndClean(s: string)
    ensures var t := TrimEnd(s); t <= s && (t == "" || !IsSpace(t[|t| - 1]))
  {
    if s != "" && IsSpace(s[|s| - 1]) {
      TrimEndClean(s[..|s| - 1]);
    }
  }

  lemma {:induction false} TrimStartShrinks(s: string)
    ensures |TrimStart(s)| <= |s|
    ensures |TrimStart(s)| == |s| ==> TrimStart(s) == s && (s == "" || !IsSpace(s[0]))
  {
    if s != "" && IsSpace(s[0]) {
      TrimStartShrinks(s[1..]);
    }
  }

  lemma {:induction false} TrimEndShrinks(s: string)
    ensures |TrimEnd(s)| <= |s|
    ensures |TrimEnd(s)| == |s| ==> TrimEnd(s) == s && (s == "" || !IsSpace(s[|s| - 1]))
  {
    if s != "" && IsSpace(s[|s| - 1]) {
      TrimEndShrinks(s[..|s| - 1]);
    }
  }

  /** Every run of white space becomes one space. */
  function CollapseSpaces(s: string): string {
    if s == "" then ""
    else if !IsSpace(s[0]) then [s[0]] + CollapseSpaces(s[1..])
    else if |s| > 1 && IsSpace(s[1]) then CollapseSpaces(s[1..])
    else " " + CollapseSpaces(s[1..])
  }

  /** Upper case of the basic Latin letters; every other character is kept. */
  function UpperChar(c: char): char {
    if 'a' <= c <= 'z' then c - 'a' + 'A' else c
  }

  function Upper(s: string): (u: string)
    ensures |u| == |s|
  {
    seq(|s|, i requires 0 <= i < |s| => UpperChar(s[i]))
  }

  lemma UpperIdempotent(s: string)
    ensures Upper(Upper(s)) == Upper(s)
  {
  }

  lemma {:induction false} StartSplits(s: string) returns (before: string)
    ensures s == before + TrimStart(s) && forall i :: 0 <= i < |before| ==> IsSpace(before[i])
  {
    before := "";
    if s != "" && IsSpace(s[0]) {
      var rest := StartSplits(s[1..]);
      before := [s[0]] + rest;
    }
  }

  lemma {:induction false} EndSplits(s: string) returns (after: string)
    ensures s == TrimEnd(s) + after && forall i :: 0 <= i < |after| ==> IsSpace(after[i])
  {
    after := "";
    if s != "" && IsSpace(s[|s| - 1]) {
      var rest := EndSplits(s[..|s| - 1]);
      after := rest + [s[|s| - 1]];
    }
  }

  /** Trimming takes white space off both ends, and leaves a text that has none there. */
  lemma TrimSplits(s: string) returns (before: string, after: string)
    ensures s == before + Trim(s) + after && IsTrimmed(Trim(s))
    ensures forall i :: 0 <= i < |before| ==> IsSpace(before[i])
    ensures forall i :: 0 <= i < |after| ==> IsSpace(after[i])
  {
    before := StartSplits(s);
    after := EndSplits(TrimStart(s));
    TrimIdempotent(s);
    TrimFixed(Trim(s));
  }

  /** Letters of the basic Latin alphabet become capitals, and nothing else changes. */
  lemma UpperLetters(s: string, i: nat)
    requires i < |s|
    ensures Upper(s)[i] == if 'a' <= s[i] <= 'z' then "ABCDEFGHIJKLMNOPQRSTUVWXYZ"[s[i] as int - 'a' as int] else s[i]
  {
  }

  lemma {:induction false} CollapseSpaceRun(spaces: string, rest: string)
    requires spaces != "" && forall i :: 0 <= i < |spaces| ==> IsSpace(spaces[i])
    requires rest == "" || !IsSpace(rest[0])
    ensures CollapseSpaces(spaces + rest) == " " + CollapseSpaces(rest)
  {
    assert (spaces + rest)[1..] == spaces[1..] + rest;
    if |spaces| > 1 {
      CollapseSpaceRun(spaces[1..], rest);
    } else {
      assert spaces[1..] + rest == rest;
    }
  }

  /** A word stays as it is, and the white space behind it becomes one space. */
  lemma {:induction false} CollapseRuns(word: string, spaces: string, rest: string)
    requires forall i :: 0 <= i < |word| ==> !IsSpace(word[i])
    requires forall i :: 0 <= i < |spaces| ==> IsSpace(spaces[i])
    requires rest == "" || !IsSpace(rest[0])
    ensures CollapseSpaces(word + (spaces + rest)) == word + ((if spaces == "" then "" else " ") + CollapseSpaces(rest))
    decreases |word|
  {
    var tail := spaces + rest;
    var printed := (if spaces == "" then "" else " ") + CollapseSpaces(rest);
    if word != "" {
      CollapseRuns(word[1..], spaces, rest);
      assert (word + tail)[1..] == word[1..] + tail;
      assert [word[0]] + (word[1..] + printed) == word + printed;
    } else {
      assert word + tail == tail && word + printed == printed;
      if spaces == "" {
        assert tail == rest && printed == CollapseSpaces(rest);
      } else {
        CollapseSpaceRun(spaces, rest);
      }
    }
  }
}

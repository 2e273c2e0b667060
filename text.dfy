/** The JavaScript string methods the exercises rely on (trim, toUpperCase,
    toLowerCase, startsWith, endsWith, indexOf, includes, padEnd, split, the
    `<` order on strings), restricted to ASCII whitespace and ASCII letters. */
module Text {
  import opened Wrappers

  /** The ASCII characters that String.prototype.trim removes. */
  predicate IsSpace(c: char) {
    c == ' ' || c == '\t' || c == '\n' || c == '\r' || c == '\U{000B}' || c == '\U{000C}'
  }

  predicate AllSpace(s: string) {
    forall i :: 0 <= i < |s| ==> IsSpace(s[i])
  }

  /** Neither end of `s` is whitespace. */
  predicate Unpadded(s: string) {
    s == [] || (!IsSpace(s[0]) && !IsSpace(s[|s| - 1]))
  }

  /** `s` without its leading whitespace. */
  function TrimStart(s: string): (r: string)
    ensures |r| <= |s| && r == s[|s| - |r|..]
    ensures AllSpace(s[..|s| - |r|])
    ensures r == [] || !IsSpace(r[0])
  {
    if s != [] && IsSpace(s[0]) then TrimStart(s[1..]) else s
  }

  /** `s` without its trailing whitespace. */
  function TrimEnd(s: string): (r: string)
    ensures |r| <= |s| && r == s[..|r|]
    ensures AllSpace(s[|r|..])
    ensures r == [] || !IsSpace(r[|r| - 1])
  {
    if s != [] && IsSpace(s[|s| - 1]) then TrimEnd(s[..|s| - 1]) else s
  }

  /** String.prototype.trim. */
  function Trim(s: string): (r: string)
    ensures Unpadded(r)
    ensures |r| <= |s|
  {
    TrimEnd(TrimStart(s))
  }

  /** Trim removes exactly the whitespace around the text and nothing else:
      padding `m` with whitespace on either side and trimming gives `m` back. */
  lemma {:induction false} TrimOfPadded(a: string, m: string, b: string)
    requires AllSpace(a) && AllSpace(b) && Unpadded(m)
    ensures Trim(a + m + b) == m
  {
    if m == [] {
      assert AllSpace(a + m + b);
      TrimEmptyIffAllSpace(a + m + b);
    } else {
      TrimStartOfPadded(a, m + b);
      assert TrimStart(a + m + b) == m + b by { assert a + m + b == a + (m + b); }
      TrimEndOfPadded(m, b);
    }
  }

  lemma {:induction false} TrimStartOfPadded(a: string, m: string)
    requires AllSpace(a) && (m == [] || !IsSpace(m[0]))
    ensures TrimStart(a + m) == m
  {
    if a != [] {
      assert (a + m)[1..] == a[1..] + m;
      TrimStartOfPadded(a[1..], m);
    }
  }

  lemma {:induction false} TrimEndOfPadded(m: string, b: string)
    requires AllSpace(b) && (m == [] || !IsSpace(m[|m| - 1]))
    ensures TrimEnd(m + b) == m
  {
    if b != [] {
      assert (m + b)[..|m + b| - 1] == m + b[..|b| - 1];
      TrimEndOfPadded(m, b[..|b| - 1]);
    } else {
      assert m + b == m;
    }
  }

  /** A string is empty after trimming exactly when it is all whitespace. */
  lemma TrimEmptyIffAllSpace(s: string)
    ensures Trim(s) == [] <==> AllSpace(s)
  {
    var t := TrimStart(s);
    if !AllSpace(s) {
      var i :| 0 <= i < |s| && !IsSpace(s[i]);
      assert t[i - (|s| - |t|)] == s[i];
    }
  }

  /** Trimming a string with no whitespace at either end leaves it as is. */
  lemma TrimOfUnpadded(s: string)
    requires Unpadded(s)
    ensures Trim(s) == s
  {
    TrimOfPadded("", s, "");
    assert "" + s + "" == s;
  }

  lemma TrimIdempotent(s: string)
    ensures Trim(Trim(s)) == Trim(s)
  {
    TrimOfUnpadded(Trim(s));
  }

  function LowerChar(c: char): char {
    if 'A' <= c <= 'Z' then (c as int + 32) as char else c
  }

  function UpperChar(c: char): char {
    if 'a' <= c <= 'z' then (c as int - 32) as char else c
  }

  /** String.prototype.toLowerCase on ASCII letters. */
  function ToLower(s: string): (r: string)
    ensures |r| == |s|
    ensures forall i :: 0 <= i < |s| ==> r[i] == LowerChar(s[i])
  {
    seq(|s|, i requires 0 <= i < |s| => LowerChar(s[i]))
  }

  /** String.prototype.toUpperCase on ASCII letters. */
  function ToUpper(s: string): (r: string)
    ensures |r| == |s|
    ensures forall i :: 0 <= i < |s| ==> r[i] == UpperChar(s[i])
  {
    seq(|s|, i requires 0 <= i < |s| => UpperChar(s[i]))
  }

  /** No ASCII capital letter. */
  predicate IsLower(s: string) {
    forall i :: 0 <= i < |s| ==> !('A' <= s[i] <= 'Z')
  }

  /** No ASCII small letter. */
  predicate IsUpper(s: string) {
    forall i :: 0 <= i < |s| ==> !('a' <= s[i] <= 'z')
  }

  /** `s` and `t` differ at most in the case of ASCII letters. */
  predicate SameIgnoringCase(s: string, t: string) {
    |s| == |t| && forall i :: 0 <= i < |s| ==> LowerChar(s[i]) == LowerChar(t[i])
  }

  /** Changing the case of one character leaves no letter of the other case,
      keeps the letter, and keeps whitespace whitespace. */
  lemma CaseCharFacts(c: char)
    ensures !('a' <= UpperChar(c) <= 'z') && !('A' <= LowerChar(c) <= 'Z')
    ensures LowerChar(UpperChar(c)) == LowerChar(c) && LowerChar(LowerChar(c)) == LowerChar(c)
    ensures IsSpace(UpperChar(c)) == IsSpace(c) && IsSpace(LowerChar(c)) == IsSpace(c)
  {
  }

  /** toUpperCase leaves no small letter, only changes case, keeps the ends
      free of whitespace, and is empty only for the empty string. */
  lemma ToUpperFacts(s: string)
    ensures IsUpper(ToUpper(s)) && SameIgnoringCase(ToUpper(s), s)
    ensures Unpadded(s) ==> Unpadded(ToUpper(s))
  {
    var r := ToUpper(s);
    forall i | 0 <= i < |s|
      ensures !('a' <= r[i] <= 'z') && LowerChar(r[i]) == LowerChar(s[i]) && IsSpace(r[i]) == IsSpace(s[i])
    {
      CaseCharFacts(s[i]);
    }
  }

  /** toLowerCase leaves no capital letter, only changes case, and keeps the
      ends free of whitespace. */
  lemma ToLowerFacts(s: string)
    ensures IsLower(ToLower(s)) && SameIgnoringCase(ToLower(s), s)
    ensures Unpadded(s) ==> Unpadded(ToLower(s))
  {
    var r := ToLower(s);
    forall i | 0 <= i < |s|
      ensures !('A' <= r[i] <= 'Z') && LowerChar(r[i]) == LowerChar(s[i]) && IsSpace(r[i]) == IsSpace(s[i])
    {
      CaseCharFacts(s[i]);
    }
  }

  predicate StartsWith(s: string, prefix: string) {
    |prefix| <= |s| && s[..|prefix|] == prefix
  }

  predicate EndsWith(s: string, suffix: string) {
    |suffix| <= |s| && s[|s| - |suffix|..] == suffix
  }

  /** `sub` is found in `s` starting at index `i`. */
  predicate OccursAt(s: string, sub: string, i: int) {
    0 <= i && i + |sub| <= |s| && s[i..i + |sub|] == sub
  }

  /** The first index at or after `k` where `sub` occurs. */
  function IndexFrom(s: string, sub: string, k: nat): (r: Option<nat>)
    ensures r.Some? ==> k <= r.value && OccursAt(s, sub, r.value)
    ensures r.Some? ==> forall j :: k <= j < r.value ==> !OccursAt(s, sub, j)
    ensures r.None? ==> forall j :: k <= j ==> !OccursAt(s, sub, j)
    decreases |s| - k
  {
    if k + |sub| > |s| then None
    else if s[k..k + |sub|] == sub then Some(k)
    else IndexFrom(s, sub, k + 1)
  }

  /** String.prototype.indexOf: the first occurrence of `sub`, None for -1. */
  function IndexOf(s: string, sub: string): (r: Option<nat>)
    ensures r.Some? ==> OccursAt(s, sub, r.value)
    ensures r.Some? ==> forall j :: 0 <= j < r.value ==> !OccursAt(s, sub, j)
    ensures r.None? <==> forall j :: !OccursAt(s, sub, j)
  {
    IndexFrom(s, sub, 0)
  }

  /** String.prototype.includes. */
  predicate Contains(s: string, sub: string) {
    IndexOf(s, sub).Some?
  }

  /** The order of JavaScript's `<` on strings: character by character, a
      proper prefix first. */
  predicate LexLess(a: string, b: string) {
    if a == [] then b != []
    else if b == [] then false
    else if a[0] != b[0] then a[0] < b[0]
    else LexLess(a[1..], b[1..])
  }

  lemma {:induction false} LexLessIrreflexive(a: string)
    ensures !LexLess(a, a)
  {
    if a != [] { LexLessIrreflexive(a[1..]); }
  }

  lemma {:induction false} LexLessTransitive(a: string, b: string, c: string)
    requires LexLess(a, b) && LexLess(b, c)
    ensures LexLess(a, c)
  {
    if a != [] && b != [] && c != [] && a[0] == b[0] && b[0] == c[0] {
      LexLessTransitive(a[1..], b[1..], c[1..]);
    }
  }

  lemma {:induction false} LexLessTotal(a: string, b: string)
    ensures a == b || LexLess(a, b) || LexLess(b, a)
  {
    if a != [] && b != [] && a[0] == b[0] {
      LexLessTotal(a[1..], b[1..]);
      if a[1..] == b[1..] {
        assert a == [a[0]] + a[1..] && b == [b[0]] + b[1..];
      }
    }
  }

  /** Two strings that agree before position `k` and differ there are
      ordered by their characters at `k`. */
  lemma {:induction false} LexLessAt(a: string, b: string, k: nat)
    requires k < |a| && k < |b| && a[..k] == b[..k] && a[k] < b[k]
    ensures LexLess(a, b) && !LexLess(b, a)
  {
    if k > 0 {
      assert a[0] == a[..k][0] == b[..k][0] == b[0];
      assert a[1..][..k - 1] == a[1..k] == b[1..k] == b[1..][..k - 1];
      LexLessAt(a[1..], b[1..], k - 1);
    }
  }

  predicate IsDigit(c: char) {
    '0' <= c <= '9'
  }

  predicate AllDigits(s: string) {
    forall i :: 0 <= i < |s| ==> IsDigit(s[i])
  }

  function DigitChar(d: nat): char
    requires d < 10
  {
    '0' + d as char
  }

  function Pow10(k: nat): (r: nat)
    ensures r >= 1
  {
    if k == 0 then 1 else 10 * Pow10(k - 1)
  }

  /** Decimal digits of a natural number, without leading zeros. */
  function NatToString(n: nat): (r: string)
    ensures r != [] && AllDigits(r)
    ensures |r| > 1 ==> r[0] != '0'
    ensures Pow10(|r| - 1) <= n + (if n == 0 then 1 else 0) && n < Pow10(|r|)
  {
    if n < 10 then [DigitChar(n)] else NatToString(n / 10) + [DigitChar(n % 10)]
  }

  /** The number a string of decimal digits denotes (parseInt on digits). */
  function DigitsValue(s: string): (v: nat)
    requires AllDigits(s)
    ensures v < Pow10(|s|)
    ensures s != [] && s[0] != '0' ==> Pow10(|s| - 1) <= v
  {
    if s == [] then 0
    else DigitsValue(s[..|s| - 1]) * 10 + (s[|s| - 1] - '0') as nat
  }

  /** Writing a number out and reading it back gives the number. */
  lemma {:induction false} DigitsValueOfNatToString(n: nat)
    ensures DigitsValue(NatToString(n)) == n
  {
    if n >= 10 {
      DigitsValueOfNatToString(n / 10);
      var s := NatToString(n);
      assert s[..|s| - 1] == NatToString(n / 10);
    }
  }

  /** A digit string without a leading zero is the way its value is written. */
  lemma {:induction false} NatToStringOfDigitsValue(s: string)
    requires AllDigits(s) && s != [] && (s[0] != '0' || |s| == 1)
    ensures NatToString(DigitsValue(s)) == s
  {
    var d := (s[|s| - 1] - '0') as nat;
    var p := s[..|s| - 1];
    DigitCharOf(s[|s| - 1]);
    assert s == p + [s[|s| - 1]];
    assert DigitsValue(s) == DigitsValue(p) * 10 + d;
    if |s| == 1 {
      assert DigitsValue(p) == 0 by { assert p == []; }
      assert NatToString(d) == [DigitChar(d)];
    } else {
      assert p[0] == s[0];
      NatToStringOfDigitsValue(p);
      assert DigitsValue(p) >= 1 by { assert Pow10(|p| - 1) >= 1; }
      NatToStringStep(DigitsValue(p), d);
    }
  }

  lemma DigitCharOf(c: char)
    requires IsDigit(c)
    ensures DigitChar((c - '0') as nat) == c
  {
  }

  /** Writing out a number with one more digit `d` at the end. */
  lemma NatToStringStep(q: nat, d: nat)
    requires q >= 1 && d < 10
    ensures NatToString(q * 10 + d) == NatToString(q) + [DigitChar(d)]
  {
    var n := q * 10 + d;
    assert n / 10 == q && n % 10 == d;
  }

  /** String.prototype.split with a one-character separator: the pieces
      between separators, including empty ones. */
  function Split(s: string, sep: char): (r: seq<string>)
    ensures |r| >= 1
  {
    if s == [] then [""]
    else
      var rest := Split(s[1..], sep);
      if s[0] == sep then [""] + rest else [[s[0]] + rest[0]] + rest[1..]
  }

  /** No piece contains the separator. */
  lemma {:induction false} SplitPiecesFree(s: string, sep: char)
    ensures forall i :: 0 <= i < |Split(s, sep)| ==> sep !in Split(s, sep)[i]
  {
    if s != [] {
      SplitPiecesFree(s[1..], sep);
    }
  }

  /** Array.prototype.join with a one-character separator. */
  function Join(pieces: seq<string>, sep: char): string {
    if |pieces| == 0 then ""
    else if |pieces| == 1 then pieces[0]
    else pieces[0] + [sep] + Join(pieces[1..], sep)
  }

  /** Joining the pieces with the separator gives the string back. */
  lemma {:induction false} JoinSplit(s: string, sep: char)
    ensures Join(Split(s, sep), sep) == s
  {
    if s != [] {
      var rest := Split(s[1..], sep);
      JoinSplit(s[1..], sep);
      if s[0] == sep {
        assert ([""] + rest)[1..] == rest;
      } else {
        var r := [[s[0]] + rest[0]] + rest[1..];
        if |rest| > 1 {
          assert r[1..] == rest[1..];
          assert Join(rest, sep) == rest[0] + [sep] + Join(rest[1..], sep);
        }
      }
    }
  }

  /** A separator splits the string into the pieces on either side of it. */
  lemma {:induction false} SplitAround(a: string, b: string, sep: char)
    ensures Split(a + [sep] + b, sep) == Split(a, sep) + Split(b, sep)
  {
    if a == [] {
      assert a + [sep] + b == [sep] + b;
      SplitCons(sep, b, sep);
    } else {
      var t := a[1..] + [sep] + b;
      assert a + [sep] + b == [a[0]] + t;
      assert a == [a[0]] + a[1..];
      SplitAround(a[1..], b, sep);
      SplitPrepend(a[0], t, sep, Split(a[1..], sep), Split(b, sep));
      SplitCons(a[0], a[1..], sep);
    }
  }

  /** Splitting a string that starts with `c`. */
  lemma SplitCons(c: char, t: string, sep: char)
    ensures Split([c] + t, sep) ==
            if c == sep then [""] + Split(t, sep) else [[c] + Split(t, sep)[0]] + Split(t, sep)[1..]
  {
    assert ([c] + t)[0] == c && ([c] + t)[1..] == t;
  }

  /** A character in front of pieces `left + right` joins the first of `left`
      or starts a piece of its own. */
  lemma SplitPrepend(c: char, t: string, sep: char, left: seq<string>, right: seq<string>)
    requires Split(t, sep) == left + right && |left| >= 1
    ensures Split([c] + t, sep) ==
            (if c == sep then [""] + left else [[c] + left[0]] + left[1..]) + right
  {
    SplitCons(c, t, sep);
    if c != sep {
      assert (left + right)[0] == left[0] && (left + right)[1..] == left[1..] + right;
    }
  }

  /** A string without the separator is a single piece. */
  lemma {:induction false} SplitWithoutSeparator(s: string, sep: char)
    requires sep !in s
    ensures Split(s, sep) == [s]
  {
    if s != [] {
      SplitWithoutSeparator(s[1..], sep);
      assert [s[0]] + s[1..] == s;
    }
  }
}

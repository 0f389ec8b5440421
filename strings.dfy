/** The pieces of Python's string behaviour the analyzer relies on: `in` on
    strings, `strip()`, `lower()`, `"sep".join(...)` and the decimal form of
    an integer in an f-string. Strings are sequences of Unicode scalar
    values; unlike Python's `str`, they cannot hold a lone surrogate. */
module Strings {

  /** The characters Python's `str.isspace` accepts, which are the ones
      `str.strip()` removes from both ends. */
  predicate IsSpace(c: char) {
    || ('\U{0009}' <= c <= '\U{000D}')
    || ('\U{001C}' <= c <= '\U{0020}')
    || c == '\U{0085}' || c == '\U{00A0}' || c == '\U{1680}'
    || ('\U{2000}' <= c <= '\U{200A}')
    || c == '\U{2028}' || c == '\U{2029}' || c == '\U{202F}'
    || c == '\U{205F}' || c == '\U{3000}'
  }

  /** `s.lstrip()`. */
  function StripLeft(s: string): string {
    if s != [] && IsSpace(s[0]) then StripLeft(s[1..]) else s
  }

  /** `s.rstrip()`. */
  function StripRight(s: string): string {
    if s != [] && IsSpace(s[|s| - 1]) then StripRight(s[..|s| - 1]) else s
  }

  /** `s.strip()`. */
  function Strip(s: string): string {
    StripRight(StripLeft(s))
  }

  /** `s.lstrip()` is the suffix of `s` left after dropping the leading
      white space: it is empty or starts on a non-space character. */
  lemma {:induction false} StripLeftFacts(s: string)
    ensures var r := StripLeft(s);
      && |r| <= |s| && r == s[|s| - |r|..]
      && (forall k :: 0 <= k < |s| - |r| ==> IsSpace(s[k]))
      && (r != [] ==> !IsSpace(r[0]))
    decreases |s|
  {
    if s != [] && IsSpace(s[0]) {
      StripLeftFacts(s[1..]);
      var r := StripLeft(s);
      assert s[1..][|s| - 1 - |r|..] == s[|s| - |r|..];
      forall k | 1 <= k < |s| - |r| ensures IsSpace(s[k]) {
        assert s[k] == s[1..][k - 1];
      }
    }
  }

  /** `s.rstrip()` is the prefix of `s` left after dropping the trailing
      white space: it is empty or ends on a non-space character. */
  lemma {:induction false} StripRightFacts(s: string)
    ensures var r := StripRight(s);
      && |r| <= |s| && r == s[..|r|]
      && (forall k :: |r| <= k < |s| ==> IsSpace(s[k]))
      && (r != [] ==> !IsSpace(r[|r| - 1]))
    decreases |s|
  {
    if s != [] && IsSpace(s[|s| - 1]) {
      StripRightFacts(s[..|s| - 1]);
      var r := StripRight(s);
      assert s[..|s| - 1][..|r|] == s[..|r|];
      forall k | |r| <= k < |s| - 1 ensures IsSpace(s[k]) {
        assert s[k] == s[..|s| - 1][k];
      }
    }
  }

  /** `s.strip()` is the window `s[i..j]` that starts and ends on a
      non-space character, with only white space outside it. */
  lemma StripWindow(s: string) returns (i: nat, j: nat)
    ensures i <= j <= |s| && Strip(s) == s[i..j]
    ensures forall k :: 0 <= k < i ==> IsSpace(s[k])
    ensures forall k :: j <= k < |s| ==> IsSpace(s[k])
    ensures i < j ==> !IsSpace(s[i]) && !IsSpace(s[j - 1])
  {
    var l := StripLeft(s);
    StripLeftFacts(s);
    StripRightFacts(l);
    i := |s| - |l|;
    j := i + |StripRight(l)|;
    assert s[i..j] == l[..|StripRight(l)|];
    forall k | j <= k < |s| ensures IsSpace(s[k]) {
      assert s[k] == l[k - i];
    }
  }

  /** Putting text around `c` never makes its stripped form shorter. */
  lemma StripOfInfix(a: string, c: string, b: string)
    ensures |Strip(c)| <= |Strip(a + c + b)|
  {
    var s := a + c + b;
    var ci, cj := StripWindow(c);
    var si, sj := StripWindow(s);
    if ci < cj {
      assert s[|a| + ci] == c[ci];
      assert s[|a| + cj - 1] == c[cj - 1];
      assert si <= |a| + ci;
      assert |a| + cj <= sj;
    }
  }

  /** `needle` occurs in `hay` starting at index `i`. */
  predicate OccursAt(hay: string, needle: string, i: nat) {
    i + |needle| <= |hay| && hay[i..i + |needle|] == needle
  }

  /** Python's `needle in hay` for two strings. */
  predicate Contains(hay: string, needle: string)
    decreases |hay|
  {
    |needle| <= |hay| && (hay[..|needle|] == needle || Contains(hay[1..], needle))
  }

  /** `Contains` holds exactly when there is an index where `needle` occurs. */
  lemma {:induction false} ContainsIffOccurs(hay: string, needle: string)
    ensures Contains(hay, needle) <==> exists i: nat :: OccursAt(hay, needle, i)
    decreases |hay|
  {
    if Contains(hay, needle) {
      if hay[..|needle|] == needle {
        assert OccursAt(hay, needle, 0);
      } else {
        ContainsIffOccurs(hay[1..], needle);
        var i: nat :| OccursAt(hay[1..], needle, i);
        assert hay[i + 1..i + 1 + |needle|] == hay[1..][i..i + |needle|];
        assert OccursAt(hay, needle, i + 1);
      }
    }
    if exists i: nat :: OccursAt(hay, needle, i) {
      var i: nat :| OccursAt(hay, needle, i);
      if i > 0 {
        assert hay[1..][i - 1..i - 1 + |needle|] == hay[i..i + |needle|];
        assert OccursAt(hay[1..], needle, i - 1);
        ContainsIffOccurs(hay[1..], needle);
      }
    }
  }

  /** Every string occurs in itself. */
  lemma ContainsItself(s: string)
    ensures Contains(s, s)
  {
    assert s[..|s|] == s;
  }

  /** An occurrence in `c` is an occurrence in `a + c + b`. */
  lemma ContainsInInfix(a: string, c: string, b: string, needle: string)
    requires Contains(c, needle)
    ensures Contains(a + c + b, needle)
  {
    ContainsIffOccurs(c, needle);
    var i: nat :| OccursAt(c, needle, i);
    var s := a + c + b;
    assert s[|a| + i..|a| + i + |needle|] == c[i..i + |needle|];
    assert OccursAt(s, needle, |a| + i);
    ContainsIffOccurs(s, needle);
  }

  /** An occurrence in `c` is an occurrence in `c + b`. */
  lemma ContainsAppend(c: string, b: string, needle: string)
    requires Contains(c, needle)
    ensures Contains(c + b, needle)
  {
    ContainsInInfix([], c, b, needle);
    assert [] + c + b == c + b;
  }

  /** An occurrence in `c` is an occurrence in `a + c`. */
  lemma ContainsPrepend(a: string, c: string, needle: string)
    requires Contains(c, needle)
    ensures Contains(a + c, needle)
  {
    ContainsInInfix(a, c, [], needle);
    assert a + c + [] == a + c;
  }

  /** Python's `str.lower()` on one character, restricted to ASCII letters. */
  function LowerChar(c: char): char {
    if 'A' <= c <= 'Z' then (c as int - 'A' as int + 'a' as int) as char else c
  }

  /** `s.lower()` with ASCII case folding, character by character. */
  function Lower(s: string): (r: string)
    ensures |r| == |s|
  {
    seq(|s|, k requires 0 <= k < |s| => LowerChar(s[k]))
  }

  /** Lower-casing commutes with slicing. */
  lemma LowerSlice(s: string, i: nat, j: nat)
    requires i <= j <= |s|
    ensures Lower(s[i..j]) == Lower(s)[i..j]
  {
    var a, b := Lower(s[i..j]), Lower(s)[i..j];
    forall k | 0 <= k < |a| ensures a[k] == b[k] {
      assert s[i..j][k] == s[i + k];
    }
  }

  /** `sep.join(parts)`. */
  function JoinWith(sep: string, parts: seq<string>): string
    decreases |parts|
  {
    if |parts| == 0 then ""
    else if |parts| == 1 then parts[0]
    else parts[0] + sep + JoinWith(sep, parts[1..])
  }

  /** Every part appears verbatim in the joined string. */
  lemma {:induction false} JoinContainsPart(sep: string, parts: seq<string>, k: nat)
    requires k < |parts|
    ensures Contains(JoinWith(sep, parts), parts[k])
    decreases |parts|
  {
    var joined := JoinWith(sep, parts);
    if |parts| == 1 {
      assert parts[0][..|parts[0]|] == parts[0];
    } else {
      var rest := JoinWith(sep, parts[1..]);
      assert joined == parts[0] + sep + rest;
      if k == 0 {
        assert joined[..|parts[0]|] == parts[0];
      } else {
        JoinContainsPart(sep, parts[1..], k - 1);
        ContainsInInfix(parts[0] + sep, rest, "", parts[k]);
        assert parts[0] + sep + rest + "" == joined;
      }
    }
  }

  /** The character for a decimal digit. */
  function Digit(d: nat): (c: char)
    requires d < 10
    ensures '0' <= c <= '9'
  {
    ('0' as int + d) as char
  }

  /** The value of a decimal digit character. */
  function DigitValue(c: char): nat
    requires '0' <= c <= '9'
  {
    c as int - '0' as int
  }

  /** Every character is a decimal digit. */
  predicate AllDigits(s: string) {
    forall k :: 0 <= k < |s| ==> '0' <= s[k] <= '9'
  }

  /** Python's `f"{n}"` for a non-negative integer: its decimal digits,
      at least one, without a leading zero. */
  function Decimal(n: nat): (s: string)
    ensures |s| >= 1
    ensures s[0] == '0' ==> n == 0
    decreases n
  {
    if n < 10 then [Digit(n)] else Decimal(n / 10) + [Digit(n % 10)]
  }

  /** Reads a string of decimal digits as a number: the partner of `Decimal`. */
  function ParseDecimal(s: string): nat
    requires AllDigits(s)
  {
    if s == [] then 0 else ParseDecimal(s[..|s| - 1]) * 10 + DigitValue(s[|s| - 1])
  }

  /** The decimal form of a number is all digits and reads back as that number. */
  lemma {:induction false} DecimalRoundTrip(n: nat)
    ensures AllDigits(Decimal(n)) && ParseDecimal(Decimal(n)) == n
    decreases n
  {
    if n >= 10 {
      DecimalRoundTrip(n / 10);
      var s := Decimal(n);
      assert s[..|s| - 1] == Decimal(n / 10);
      assert s[|s| - 1] == Digit(n % 10);
    }
  }
}

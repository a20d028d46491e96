/** Text helpers shared by the SQL fragment builders: decimal rendering of integers
    (C#'s `int.ToString()` as used by string interpolation), substring search,
    `string.Join`, and the shape of a parameter identifier. */
module Text {

  predicate IsDigit(c: char) {
    '0' <= c <= '9'
  }

  predicate IsIdentifierChar(c: char) {
    IsDigit(c) || ('a' <= c <= 'z') || ('A' <= c <= 'Z') || c == '_'
  }

  /** A token the SQL lexer reads as one name: a letter or `_`, then letters, digits, `_`. */
  predicate IsIdentifier(s: string) {
    |s| > 0 && !IsDigit(s[0]) && forall i :: 0 <= i < |s| ==> IsIdentifierChar(s[i])
  }

  function DigitChar(d: nat): (c: char)
    requires d < 10
    ensures IsDigit(c) && c as int - '0' as int == d
  {
    ('0' as int + d) as char
  }

  /** Decimal text of a natural number, most significant digit first, no leading zeros. */
  function NatText(n: nat): (s: string)
    ensures |s| > 0
    ensures forall i :: 0 <= i < |s| ==> IsDigit(s[i])
    ensures |s| == 1 <==> n < 10
    decreases n
  {
    if n < 10 then [DigitChar(n)] else NatText(n / 10) + [DigitChar(n % 10)]
  }

  /** Decimal text of an integer: a minus sign before the digits of a negative number. */
  function IntText(i: int): (s: string)
    ensures |s| > 0
    ensures s[0] == '-' <==> i < 0
    ensures forall k :: (if i < 0 then 1 else 0) <= k < |s| ==> IsDigit(s[k])
  {
    if i < 0 then "-" + NatText(-i) else NatText(i)
  }

  /** Different numbers have different decimal texts. */
  lemma {:induction false} NatTextInjective(a: nat, b: nat)
    requires NatText(a) == NatText(b)
    ensures a == b
    decreases a
  {
    var s := NatText(a);
    if a < 10 {
      assert b < 10;
      assert DigitChar(a) == s[0] == DigitChar(b);
    } else {
      assert b >= 10;
      assert NatText(a / 10) == s[..|s| - 1] == NatText(b / 10);
      NatTextInjective(a / 10, b / 10);
      assert DigitChar(a % 10) == s[|s| - 1] == DigitChar(b % 10);
    }
  }

  lemma IntTextInjective(a: int, b: int)
    requires IntText(a) == IntText(b)
    ensures a == b
  {
    if a < 0 {
      assert NatText(-a) == IntText(a)[1..] == NatText(-b);
      NatTextInjective(-a, -b);
    } else {
      NatTextInjective(a, b);
    }
  }

  /** `p` occurs in `s` at some position (the `%p%` of SQL LIKE and `instr(s, p) > 0`). */
  predicate IsInfix(p: string, s: string) {
    exists k :: 0 <= k <= |s| - |p| && OccursAt(p, s, k)
  }

  predicate OccursAt(p: string, s: string, k: int) {
    0 <= k <= |s| - |p| && s[k..k + |p|] == p
  }

  lemma InfixOfConcat(a: string, p: string, b: string)
    ensures IsInfix(p, a + p + b)
  {
    var s := a + p + b;
    assert OccursAt(p, s, |a|);
  }

  /** The empty text occurs in every text. */
  lemma EmptyIsInfix(s: string)
    ensures IsInfix("", s)
  {
    assert OccursAt("", s, 0);
  }

  /** An occurrence of an occurrence is an occurrence. */
  lemma InfixTransitive(a: string, b: string, c: string)
    requires IsInfix(a, b) && IsInfix(b, c)
    ensures IsInfix(a, c)
  {
    var i :| 0 <= i <= |b| - |a| && OccursAt(a, b, i);
    var j :| 0 <= j <= |c| - |b| && OccursAt(b, c, j);
    forall t | 0 <= t < |a| ensures c[j + i + t] == a[t] {
      assert c[j..j + |b|][i + t] == b[i + t];
      assert b[i..i + |a|][t] == a[t];
    }
    assert OccursAt(a, c, j + i);
  }

  /** `string.Join(sep, parts)`. */
  function Join(sep: string, parts: seq<string>): (r: string)
    ensures parts == [] ==> r == ""
    ensures |parts| == 1 ==> r == parts[0]
  {
    if parts == [] then ""
    else if |parts| == 1 then parts[0]
    else parts[0] + sep + Join(sep, parts[1..])
  }

  /** Every part is an infix of the joined text. */
  lemma {:induction false} JoinContainsParts(sep: string, parts: seq<string>, i: int)
    requires 0 <= i < |parts|
    ensures IsInfix(parts[i], Join(sep, parts))
    decreases |parts|
  {
    if i == 0 {
      assert Join(sep, parts)[..|parts[0]|] == parts[0];
      assert OccursAt(parts[0], Join(sep, parts), 0);
    } else {
      JoinContainsParts(sep, parts[1..], i - 1);
      var rest := Join(sep, parts[1..]);
      var k :| 0 <= k <= |rest| - |parts[i]| && OccursAt(parts[i], rest, k);
      var prefix := parts[0] + sep;
      assert Join(sep, parts) == prefix + rest;
      assert (prefix + rest)[|prefix| + k..|prefix| + k + |parts[i]|] == rest[k..k + |parts[i]|];
      assert OccursAt(parts[i], Join(sep, parts), |prefix| + k);
    }
  }

  /** Each character of an integer's text is a digit or the minus sign. */
  lemma IntTextChars(i: int)
    ensures forall k :: 0 <= k < |IntText(i)| ==> IsDigit(IntText(i)[k]) || IntText(i)[k] == '-'
  {
  }
}

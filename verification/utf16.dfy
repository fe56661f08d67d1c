/** Kotlin (JVM) strings are sequences of UTF-16 code units: `length` and
    `take` count code units, and a character outside the Basic Multilingual
    Plane, such as the siren emoji U+1F6A8, takes two of them. This module
    fixes that representation and the few string operations the model uses. */
module Utf16 {
  import opened Wrappers

  newtype CodeUnit = x: int | 0 <= x < 0x1_0000

  /** A Kotlin `String`: any sequence of code units, lone surrogates included. */
  type KStr = seq<CodeUnit>

  predicate IsHighSurrogate(u: CodeUnit) { 0xD800 <= u < 0xDC00 }
  predicate IsLowSurrogate(u: CodeUnit) { 0xDC00 <= u < 0xE000 }

  /** The UTF-16 encoding of one Unicode scalar value. */
  function EncodeScalar(c: char): (r: KStr)
    ensures c as int < 0x1_0000 ==> r == [c as int as CodeUnit]
    ensures c as int >= 0x1_0000 ==>
      |r| == 2 && IsHighSurrogate(r[0]) && IsLowSurrogate(r[1]) &&
      0x1_0000 + (r[0] as int - 0xD800) * 0x400 + (r[1] as int - 0xDC00) == c as int
  {
    var v := c as int;
    if v < 0x1_0000 then [v as CodeUnit]
    else
      var u := v - 0x1_0000;
      [(0xD800 + u / 0x400) as CodeUnit, (0xDC00 + u % 0x400) as CodeUnit]
  }

  /** A Kotlin string literal: the UTF-16 encoding of its characters. */
  function Lit(s: string): (r: KStr)
    ensures |s| <= |r| <= 2 * |s|
  {
    if |s| == 0 then [] else EncodeScalar(s[0]) + Lit(s[1..])
  }

  /** Every character lies in the Basic Multilingual Plane. */
  predicate InBmp(s: string) {
    forall i :: 0 <= i < |s| ==> (s[i] as int) < 0x1_0000
  }

  /** A literal of Basic Multilingual Plane characters, one code unit each
      (a character outside the plane, never used this way, becomes U+FFFD). */
  function Bmp(s: string): (r: KStr)
    ensures |r| == |s|
    ensures forall i :: 0 <= i < |s| && (s[i] as int) < 0x1_0000 ==> r[i] as int == s[i] as int
  {
    seq(|s|, i requires 0 <= i < |s| => if (s[i] as int) < 0x1_0000 then s[i] as int as CodeUnit else 0xFFFD)
  }

  /** For such literals the one-unit-per-character reading is the UTF-16 encoding. */
  lemma {:induction false} BmpIsLit(s: string)
    requires InBmp(s)
    ensures Bmp(s) == Lit(s)
  {
    if |s| > 0 {
      BmpIsLit(s[1..]);
      assert Bmp(s) == [s[0] as int as CodeUnit] + Bmp(s[1..]);
    }
  }

  /** Kotlin `s.take(n)`: the first `n` code units, or all of `s` if it is shorter. */
  function Take(s: KStr, n: nat): (r: KStr)
    ensures |r| <= n
    ensures r <= s
    ensures |s| <= n ==> r == s
    ensures |s| > n ==> |r| == n
  {
    if |s| <= n then s else s[..n]
  }

  // ----- Int.toString -----

  const Zero: CodeUnit := 0x30
  const Minus: CodeUnit := 0x2D

  predicate IsDigit(u: CodeUnit) { Zero <= u <= Zero + 9 }

  function DigitOf(d: int): (u: CodeUnit)
    requires 0 <= d < 10
    ensures IsDigit(u)
  {
    (Zero as int + d) as CodeUnit
  }

  /** The decimal digits of a natural number, most significant first. */
  function Digits(n: nat): (r: KStr)
    ensures |r| >= 1
    ensures forall i :: 0 <= i < |r| ==> IsDigit(r[i])
    ensures n >= 10 ==> r[0] != Zero
  {
    if n < 10 then [DigitOf(n)] else Digits(n / 10) + [DigitOf(n % 10)]
  }

  /** Kotlin `Int.toString()`: optional minus sign, then the digits of the magnitude. */
  function Decimal(n: int): (r: KStr)
    ensures |r| >= 1
    ensures n < 0 <==> r[0] == Minus
  {
    if n < 0 then [Minus] + Digits(-n) else Digits(n)
  }

  /** The value of a run of decimal digits (0 for the empty run). */
  function DigitsValue(s: KStr): nat
    requires forall i :: 0 <= i < |s| ==> IsDigit(s[i])
  {
    if |s| == 0 then 0
    else
      var last := s[|s| - 1];
      assert IsDigit(last);
      DigitsValue(s[..|s| - 1]) * 10 + (last as int - Zero as int)
  }

  /** Reads back an integer written by `Decimal`. */
  function ParseDecimal(s: KStr): Option<int> {
    if |s| >= 2 && s[0] == Minus && forall i :: 1 <= i < |s| ==> IsDigit(s[i]) then
      var m: int := DigitsValue(s[1..]);
      Some(-m)
    else if |s| >= 1 && forall i :: 0 <= i < |s| ==> IsDigit(s[i]) then
      Some(DigitsValue(s))
    else None
  }

  lemma {:induction false} DigitsRoundTrip(n: nat)
    ensures DigitsValue(Digits(n)) == n
  {
    if n >= 10 {
      var d := Digits(n);
      DigitsRoundTrip(n / 10);
      assert d[..|d| - 1] == Digits(n / 10);
    }
  }

  /** The status code printed in a log line is recoverable from it. */
  lemma DecimalRoundTrip(n: int)
    ensures ParseDecimal(Decimal(n)) == Some(n)
  {
    if n < 0 {
      DigitsRoundTrip(-n);
      assert Decimal(n)[1..] == Digits(-n);
    } else {
      DigitsRoundTrip(n);
    }
  }

  // ----- splitting on a delimiter -----

  /** Splits `s` at the first occurrence of `d`, if any. */
  function SplitFirst(s: KStr, d: CodeUnit): (r: Option<(KStr, KStr)>)
    ensures r.None? <==> d !in s
  {
    if |s| == 0 then None
    else if s[0] == d then Some(([], s[1..]))
    else match SplitFirst(s[1..], d)
      case None => None
      case Some(p) => Some(([s[0]] + p.0, p.1))
  }

  /** A split cuts `s` around an occurrence of `d` with none before it. */
  lemma {:induction false} SplitFirstSome(s: KStr, d: CodeUnit)
    requires SplitFirst(s, d).Some?
    ensures var (a, b) := SplitFirst(s, d).value; s == a + ([d] + b) && d !in a
  {
    if s[0] != d {
      SplitFirstSome(s[1..], d);
    }
  }

  /** The split point is the first delimiter: text before it is recovered exactly. */
  lemma {:induction false} SplitFirstOf(x: KStr, d: CodeUnit, y: KStr)
    requires d !in x
    ensures SplitFirst(x + [d] + y, d) == Some((x, y))
  {
    if |x| > 0 {
      var s := x + [d] + y;
      assert s[1..] == x[1..] + [d] + y;
      SplitFirstOf(x[1..], d, y);
      assert [x[0]] + x[1..] == x;
    }
  }

  /** `s` with the literal prefix `p` removed, if `s` starts with it. */
  function StripPrefix(p: KStr, s: KStr): (r: Option<KStr>)
    ensures r.Some? <==> p <= s
    ensures r.Some? ==> s == p + r.value
  {
    if p <= s then Some(s[|p|..]) else None
  }
}

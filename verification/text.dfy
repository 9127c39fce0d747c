/**
 * The string operations of the Kotlin standard library and the JVM that the
 * program relies on: case conversion, prefix and suffix tests, `split`,
 * `replace`, `String.toInt()` and the number syntax of `String.toDouble()`.
 * Case conversion is modelled for ASCII letters only.
 */
module Text {
  import opened Outcomes

  const MinInt: int := -0x8000_0000
  const MaxInt: int := 0x7fff_ffff

  /** A value of Kotlin's 32-bit `Int`. */
  predicate InIntRange(n: int) {
    MinInt <= n <= MaxInt
  }

  // ---------------------------------------------------------------------------
  // Case conversion and affix tests
  // ---------------------------------------------------------------------------

  function LowerChar(c: char): char {
    if 'A' <= c <= 'Z' then (c as int + 32) as char else c
  }

  function UpperChar(c: char): char {
    if 'a' <= c <= 'z' then (c as int - 32) as char else c
  }

  /** `String.toLowerCase()`. */
  function Lower(s: string): (r: string)
    ensures |r| == |s|
    ensures forall i :: 0 <= i < |s| ==> r[i] == LowerChar(s[i])
  {
    seq(|s|, i requires 0 <= i < |s| => LowerChar(s[i]))
  }

  /** `String.toUpperCase()`. */
  function Upper(s: string): (r: string)
    ensures |r| == |s|
    ensures forall i :: 0 <= i < |s| ==> r[i] == UpperChar(s[i])
  {
    seq(|s|, i requires 0 <= i < |s| => UpperChar(s[i]))
  }

  predicate StartsWith(s: string, prefix: string) {
    |prefix| <= |s| && s[..|prefix|] == prefix
  }

  predicate EndsWith(s: string, suffix: string) {
    |suffix| <= |s| && s[|s| - |suffix|..] == suffix
  }

  /** `startsWith(prefix, ignoreCase = true)`. */
  predicate StartsWithIgnoreCase(s: string, prefix: string) {
    |prefix| <= |s| && Lower(s[..|prefix|]) == Lower(prefix)
  }

  /** `endsWith(suffix, ignoreCase = true)`. */
  predicate EndsWithIgnoreCase(s: string, suffix: string) {
    |suffix| <= |s| && Lower(s[|s| - |suffix|..]) == Lower(suffix)
  }

  /** `replace(from, to)` on characters. */
  function ReplaceChar(s: string, from: char, to: char): (r: string)
    ensures |r| == |s|
    ensures forall i :: 0 <= i < |s| ==> r[i] == (if s[i] == from then to else s[i])
  {
    seq(|s|, i requires 0 <= i < |s| => if s[i] == from then to else s[i])
  }

  /** After replacing every `from`, none is left. */
  lemma ReplaceCharRemoves(s: string, from: char, to: char)
    requires from != to
    ensures from !in ReplaceChar(s, from, to)
  {
    var r := ReplaceChar(s, from, to);
    forall i | 0 <= i < |r|
      ensures r[i] != from
    {
    }
  }

  // ---------------------------------------------------------------------------
  // Splitting on one delimiter
  // ---------------------------------------------------------------------------

  /** Position of the first `c` in `s`. */
  function IndexOf(s: string, c: char): (i: nat)
    requires c in s
    ensures i < |s| && s[i] == c && c !in s[..i]
  {
    if s[0] == c then 0
    else
      var j := IndexOf(s[1..], c);
      assert s[..j + 1] == [s[0]] + s[1..][..j];
      1 + j
  }

  /** The parts joined back together with the delimiter between them. */
  function Join(parts: seq<string>, d: char): string {
    if |parts| == 0 then ""
    else if |parts| == 1 then parts[0]
    else parts[0] + [d] + Join(parts[1..], d)
  }

  /**
   * Kotlin's `split(d)`: the pieces of `s` between occurrences of `d`, keeping
   * empty pieces (also a trailing one); `""` splits into `[""]`.
   */
  function Split(s: string, d: char): (parts: seq<string>)
    ensures |parts| >= 1
    ensures Join(parts, d) == s
    ensures forall i :: 0 <= i < |parts| ==> d !in parts[i]
    decreases |s|
  {
    if d !in s then [s]
    else
      var i := IndexOf(s, d);
      var rest := Split(s[i + 1..], d);
      assert s == s[..i] + [d] + s[i + 1..];
      [s[..i]] + rest
  }

  lemma IndexOfPrefix(a: string, d: char, b: string)
    requires d !in a
    ensures d in a + [d] + b && IndexOf(a + [d] + b, d) == |a|
    decreases |a|
  {
    var s := a + [d] + b;
    assert s[|a|] == d;
    if |a| > 0 {
      assert s[1..] == a[1..] + [d] + b;
      IndexOfPrefix(a[1..], d, b);
    }
  }

  /** Splitting undoes joining: the pieces of `Split` are the only delimiter-free decomposition. */
  lemma {:induction false} SplitJoin(parts: seq<string>, d: char)
    requires |parts| >= 1
    requires forall i :: 0 <= i < |parts| ==> d !in parts[i]
    ensures Split(Join(parts, d), d) == parts
    decreases |parts|
  {
    if |parts| > 1 {
      var rest := parts[1..];
      var tail := Join(rest, d);
      var s := parts[0] + [d] + tail;
      assert Join(parts, d) == s;
      IndexOfPrefix(parts[0], d, tail);
      var i := |parts[0]|;
      assert s[..i] == parts[0];
      assert s[i + 1..] == tail;
      assert Split(s, d) == [s[..i]] + Split(s[i + 1..], d);
      SplitJoin(rest, d);
      assert parts == [parts[0]] + rest;
    } else {
      assert d !in parts[0];
    }
  }

  /** `Split` yields one more piece than there are delimiters. */
  lemma {:induction false} SplitCount(s: string, d: char)
    ensures |Split(s, d)| == multiset(s)[d] + 1
    decreases |s|
  {
    if d in s {
      var i := IndexOf(s, d);
      assert s == s[..i] + [d] + s[i + 1..];
      assert multiset(s) == multiset(s[..i]) + multiset{d} + multiset(s[i + 1..]);
      assert multiset(s[..i])[d] == 0;
      SplitCount(s[i + 1..], d);
    } else {
      assert multiset(s)[d] == 0;
    }
  }

  // ---------------------------------------------------------------------------
  // Decimal integers
  // ---------------------------------------------------------------------------

  predicate IsDigit(c: char) {
    '0' <= c <= '9'
  }

  predicate AllDigits(s: string) {
    forall i :: 0 <= i < |s| ==> IsDigit(s[i])
  }

  /** The number a string of decimal digits denotes (leading zeros allowed). */
  function DigitsValue(s: string): nat
    requires AllDigits(s)
  {
    if |s| == 0 then 0
    else DigitsValue(s[..|s| - 1]) * 10 + (s[|s| - 1] as int - '0' as int)
  }

  function DigitChar(d: nat): char
    requires d < 10
  {
    ('0' as int + d) as char
  }

  /** The decimal digits of `n`, without leading zeros. */
  function NatToDigits(n: nat): (s: string)
    ensures |s| >= 1 && AllDigits(s)
    decreases n
  {
    if n < 10 then [DigitChar(n)] else NatToDigits(n / 10) + [DigitChar(n % 10)]
  }

  lemma {:induction false} NatToDigitsValue(n: nat)
    ensures DigitsValue(NatToDigits(n)) == n
    decreases n
  {
    if n >= 10 {
      NatToDigitsValue(n / 10);
      var s := NatToDigits(n);
      assert s[..|s| - 1] == NatToDigits(n / 10);
    }
  }

  /** `Int.toString()`. */
  function IntToString(n: int): string {
    if n < 0 then "-" + NatToDigits(-n) else NatToDigits(n)
  }

  function Pow10(n: nat): nat {
    if n == 0 then 1 else 10 * Pow10(n - 1)
  }

  /** Read from the left, a numeral is its first digit at its place value plus the rest. */
  lemma {:induction false} DigitsValueHead(s: string)
    requires |s| > 0 && AllDigits(s)
    ensures DigitsValue(s) == DigitsValue([s[0]]) * Pow10(|s| - 1) + DigitsValue(s[1..])
    decreases |s|
  {
    if |s| > 1 {
      var t := s[..|s| - 1];
      DigitsValueHead(t);
      assert t[0] == s[0];
      assert s[1..][..|s| - 2] == t[1..];
      assert Pow10(|s| - 1) == 10 * Pow10(|s| - 2);
    }
  }

  /** A decimal numeral with an optional leading sign: "7", "+07", "-12"; leading zeros are allowed. */
  predicate IsSignedDecimal(s: string) {
    && |s| > 0
    && AllDigits(s[1..])
    && (IsDigit(s[0]) || ((s[0] == '+' || s[0] == '-') && |s| >= 2))
  }

  /** The value a signed decimal numeral denotes. */
  function SignedDecimalValue(s: string): int
    requires IsSignedDecimal(s)
  {
    if s[0] == '-' then -(DigitsValue(s[1..]) as int)
    else if s[0] == '+' then DigitsValue(s[1..])
    else DigitsValue([s[0]]) * Pow10(|s| - 1) + DigitsValue(s[1..])
  }

  /**
   * `String.toInt()`, i.e. `Integer.parseInt`: an optional `+` or `-`, then at
   * least one decimal digit, denoting a value of 32-bit range; anything else is
   * a `NumberFormatException`, modelled as `None`.
   */
  function ParseInt(s: string): (r: Option<int>)
    ensures r.Some? ==> InIntRange(r.value)
    ensures r.Some? ==> |s| > 0 && AllDigits(s[1..]) && (IsDigit(s[0]) || s[0] == '+' || s[0] == '-')
    ensures r.Some? <==> IsSignedDecimal(s) && InIntRange(SignedDecimalValue(s))
    ensures r.Some? ==> r.value == SignedDecimalValue(s)
  {
    if |s| == 0 then None
    else
      var signed := s[0] == '-' || s[0] == '+';
      var digits := if signed then s[1..] else s;
      if |digits| == 0 || !AllDigits(digits) then None
      else
        DigitsValueHead(digits);
        var v: int := if s[0] == '-' then -(DigitsValue(digits) as int) else DigitsValue(digits);
        if InIntRange(v) then Some(v) else None
  }

  /** `toInt()` accepts an explicit '+' and leading zeros, so "+500" and "0500" both read as 500. */
  lemma ParseIntAcceptsSignAndZeros()
    ensures ParseInt("+500") == Some(500)
    ensures ParseInt("0500") == Some(500)
    ensures ParseInt("+") == None && ParseInt("5 00") == None
  {
    assert DigitsValue("5") == 5;
    assert DigitsValue("50") == 50;
    assert DigitsValue("500") == 500;
    assert DigitsValue("0500") == 500 by {
      assert "0500"[..3] == "050";
      assert DigitsValue("050") == 50 by {
        assert "050"[..2] == "05";
        assert "05"[..1] == "0";
      }
    }
  }

  /** Printing an `Int` and parsing it back gives the same `Int`. */
  lemma ParseIntToString(n: int)
    requires InIntRange(n)
    ensures ParseInt(IntToString(n)) == Some(n)
  {
    if n < 0 {
      NatToDigitsValue(-n);
      assert IntToString(n)[1..] == NatToDigits(-n);
    } else {
      NatToDigitsValue(n);
    }
  }

  /** Printed integers contain no letters, signs other than a leading '-', or delimiters. */
  lemma IntToStringChars(n: int)
    ensures forall i :: 0 <= i < |IntToString(n)| ==> IsDigit(IntToString(n)[i]) || (i == 0 && n < 0)
  {
    if n < 0 {
      var s := IntToString(n);
      assert s[1..] == NatToDigits(-n);
      forall i | 1 <= i < |s|
        ensures IsDigit(s[i])
      {
        assert s[i] == s[1..][i - 1];
      }
    }
  }

  // ---------------------------------------------------------------------------
  // The decimal syntax of `String.toDouble()` (`Double.parseDouble`)
  // ---------------------------------------------------------------------------

  /** Number of leading decimal digits of `s`. */
  function LeadingDigits(s: string): (n: nat)
    ensures n <= |s|
    ensures AllDigits(s[..n])
    ensures n < |s| ==> !IsDigit(s[n])
  {
    if |s| == 0 || !IsDigit(s[0]) then 0
    else
      var k := LeadingDigits(s[1..]);
      assert s[..k + 1] == [s[0]] + s[1..][..k];
      1 + k
  }

  /** `String.trim()`: drops leading and trailing characters up to and including space. */
  function Trim(s: string): (t: string)
    ensures |t| <= |s|
    decreases |s|
  {
    if |s| > 0 && s[0] <= ' ' then Trim(s[1..])
    else if |s| > 0 && s[|s| - 1] <= ' ' then Trim(s[..|s| - 1])
    else s
  }

  predicate IsTypeSuffix(t: string) {
    |t| == 0 || (|t| == 1 && t[0] in "fFdD")
  }

  /** An optional exponent `e[+-]digits`, then an optional `f`/`d` type suffix. */
  predicate IsExponentAndSuffix(t: string) {
    if |t| > 0 && (t[0] == 'e' || t[0] == 'E') then
      var u := if |t| > 1 && (t[1] == '+' || t[1] == '-') then t[2..] else t[1..];
      var k := LeadingDigits(u);
      k > 0 && IsTypeSuffix(u[k..])
    else IsTypeSuffix(t)
  }

  /** Digits, an optional '.' and digits (at least one digit in all), then exponent and suffix. */
  predicate IsDecimalFloat(t: string) {
    var i := LeadingDigits(t);
    var rest := t[i..];
    if |rest| > 0 && rest[0] == '.' then
      var f := LeadingDigits(rest[1..]);
      i + f > 0 && IsExponentAndSuffix(rest[1..][f..])
    else
      i > 0 && IsExponentAndSuffix(rest)
  }

  predicate IsUnsignedFloat(t: string) {
    t == "NaN" || t == "Infinity" || IsDecimalFloat(t)
  }

  /**
   * Whether `Double.parseDouble` accepts `s`: after trimming, an optional sign
   * followed by `NaN`, `Infinity` or a decimal number (hexadecimal floating
   * literals are not modelled).
   */
  predicate IsJavaDouble(s: string) {
    var t := Trim(s);
    |t| > 0 &&
      if t[0] == '+' || t[0] == '-' then IsUnsignedFloat(t[1..]) else IsUnsignedFloat(t)
  }
}

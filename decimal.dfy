/** Decimal text of integers, as Rust's `Display` writes a `usize`, an `i32`
    or an `i64`: the digits of the magnitude with no leading zero, preceded by
    `-` when the value is negative. The parsing functions are the partners
    that the round-trip lemmas below invert the rendering with. */
module Decimal {

  import opened Wrappers

  predicate IsDigit(c: char) {
    '0' <= c <= '9'
  }

  function DigitChar(d: nat): (c: char)
    requires d < 10
    ensures IsDigit(c) && DigitValue(c) == d
  {
    "0123456789"[d]
  }

  function DigitValue(c: char): nat
    requires IsDigit(c)
  {
    (c as int - '0' as int) as nat
  }

  /** The decimal text of a natural number: most significant digit first. */
  function NatText(n: nat): (s: string)
    ensures |s| > 0 && forall i :: 0 <= i < |s| ==> IsDigit(s[i])
    ensures s[0] == '0' ==> n == 0 && s == "0"
  {
    if n < 10 then [DigitChar(n)] else NatText(n / 10) + [DigitChar(n % 10)]
  }

  /** The decimal text of a signed integer: a `-` exactly when it is
      negative, then the digits of its magnitude. */
  function IntText(i: int): (s: string)
    ensures |s| > 0 && (s[0] == '-' <==> i < 0)
  {
    if i < 0 then "-" + NatText(-i) else NatText(i)
  }

  predicate AllDigits(s: string) {
    forall i :: 0 <= i < |s| ==> IsDigit(s[i])
  }

  /** The value of a string of digits, read most significant digit first. */
  function DigitsValue(s: string): nat
    requires AllDigits(s)
  {
    if s == [] then 0 else DigitsValue(s[..|s| - 1]) * 10 + DigitValue(s[|s| - 1])
  }

  function ParseNat(s: string): Option<nat> {
    if s != [] && AllDigits(s) then Some(DigitsValue(s)) else None
  }

  function ParseInt(s: string): Option<int> {
    var negative := s != [] && s[0] == '-';
    var magnitude: Option<int> := if negative then ParseNat(s[1..]) else ParseNat(s);
    if magnitude.None? then None
    else if negative then Some(-magnitude.value)
    else Some(magnitude.value)
  }

  /** The length of the longest prefix of `s` made of digits. */
  function DigitPrefixLength(s: string): (k: nat)
    ensures k <= |s| && AllDigits(s[..k])
    ensures k < |s| ==> !IsDigit(s[k])
  {
    if s != [] && IsDigit(s[0]) then 1 + DigitPrefixLength(s[1..]) else 0
  }

  /** Reading back the text of a natural number gives the number. */
  lemma {:induction false} NatTextValue(n: nat)
    ensures DigitsValue(NatText(n)) == n
  {
    var s := NatText(n);
    if n >= 10 {
      NatTextValue(n / 10);
      assert s[..|s| - 1] == NatText(n / 10);
    }
  }

  lemma NatTextRoundTrip(n: nat)
    ensures ParseNat(NatText(n)) == Some(n)
  {
    NatTextValue(n);
  }

  /** The text of every `i32`/`i64` value parses back to that value. */
  lemma IntTextRoundTrip(i: int)
    ensures ParseInt(IntText(i)) == Some(i)
  {
    if i < 0 {
      var digits := NatText(-i);
      NatTextRoundTrip(-i);
      assert IntText(i) == "-" + digits;
      assert ("-" + digits)[1..] == digits;
    } else {
      NatTextRoundTrip(i);
    }
  }

  /** The digits of a number end where the first non-digit after them stands. */
  lemma {:induction false} DigitPrefixOfNatText(s: string, rest: string)
    requires s != [] && AllDigits(s)
    requires rest == [] || !IsDigit(rest[0])
    ensures DigitPrefixLength(s + rest) == |s|
  {
    if |s| > 1 {
      assert (s + rest)[1..] == s[1..] + rest;
      DigitPrefixOfNatText(s[1..], rest);
    } else {
      assert (s + rest)[1..] == rest;
    }
  }
}

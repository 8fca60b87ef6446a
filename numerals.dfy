/**
 * Decimal text for Python integers, as `str(n)` and f-string interpolation
 * write them, and the reading back of such text.
 */
module Numerals {
  import opened Wrappers

  predicate IsDigit(c: char) { '0' <= c <= '9' }

  predicate AllDigits(s: string) { forall i :: 0 <= i < |s| ==> IsDigit(s[i]) }

  function DigitChar(d: nat): (c: char)
    requires d < 10
    ensures IsDigit(c) && c as int - '0' as int == d
  {
    ('0' as int + d) as char
  }

  /** The digits of a natural number, most significant first, with no leading zero. */
  function NatDigits(n: nat): (r: string)
    ensures r != [] && AllDigits(r)
    ensures |r| > 1 ==> r[0] != '0'
    ensures r[0] == '0' ==> n == 0 && r == "0"
  {
    if n < 10 then [DigitChar(n)] else NatDigits(n / 10) + [DigitChar(n % 10)]
  }

  /** `str(n)`: a minus sign for a negative number, then the digits of its magnitude. */
  function Show(n: int): (r: string)
    ensures r != []
    ensures n >= 0 <==> IsDigit(r[0])
    ensures n < 0 ==> |r| >= 2 && r[0] == '-'
    ensures forall i :: (if n < 0 then 1 else 0) <= i < |r| ==> IsDigit(r[i])
    ensures r[if n < 0 then 1 else 0] == '0' ==> n == 0 && |r| == 1
  {
    if n < 0 then "-" + NatDigits(-n) else NatDigits(n)
  }

  /** The value of a string of digits. */
  function DigitsValue(ds: string): nat
    requires AllDigits(ds)
  {
    if ds == [] then 0 else DigitsValue(ds[..|ds| - 1]) * 10 + (ds[|ds| - 1] as int - '0' as int)
  }

  /** The longest prefix of `s` made of digits. */
  function LeadingDigits(s: string): (r: string)
    ensures |r| <= |s| && r == s[..|r|] && AllDigits(r)
    ensures |r| < |s| ==> !IsDigit(s[|r|])
  {
    if s != [] && IsDigit(s[0]) then [s[0]] + LeadingDigits(s[1..]) else []
  }

  /** Reads a natural number at the start of `s`; gives its value and the text after it. */
  function ReadNat(s: string): Option<(nat, string)> {
    var ds := LeadingDigits(s);
    if ds == [] then None else Some((DigitsValue(ds), s[|ds|..]))
  }

  /** Reads an optionally signed integer at the start of `s`; gives its value and the text after it. */
  function ReadInt(s: string): Option<(int, string)> {
    if s != [] && s[0] == '-' then
      match ReadNat(s[1..])
      case None => None
      case Some((n, rest)) => Some((0 - n as int, rest))
    else
      ReadNat(s)
  }

  lemma {:induction false} DigitsValueOfNat(n: nat)
    ensures DigitsValue(NatDigits(n)) == n
  {
    if n >= 10 {
      DigitsValueOfNat(n / 10);
      var ds := NatDigits(n);
      assert ds[..|ds| - 1] == NatDigits(n / 10);
    }
  }

  lemma {:induction false} LeadingDigitsOf(ds: string, rest: string)
    requires AllDigits(ds)
    requires rest == [] || !IsDigit(rest[0])
    ensures LeadingDigits(ds + rest) == ds
  {
    if ds != [] {
      assert (ds + rest)[1..] == ds[1..] + rest;
      LeadingDigitsOf(ds[1..], rest);
    }
  }

  /** The digits of `m`, followed by anything that is not a digit, read back as `m` and that text. */
  lemma ReadNatDigits(m: nat, rest: string)
    requires rest == [] || !IsDigit(rest[0])
    ensures ReadNat(NatDigits(m) + rest) == Some((m, rest))
  {
    var ds := NatDigits(m);
    LeadingDigitsOf(ds, rest);
    DigitsValueOfNat(m);
    assert (ds + rest)[|ds|..] == rest;
  }

  /** A minus sign before a readable natural number reads as its negation. */
  lemma ReadSigned(x: string, v: nat, rest: string)
    requires ReadNat(x) == Some((v, rest))
    ensures ReadInt("-" + x) == Some((0 - v, rest))
  {
    var s := "-" + x;
    assert s[0] == '-' && s[1..] == x;
  }

  /** A minus sign and the digits of `m`, followed by anything that is not a digit, read back as `-m`. */
  lemma ReadNegative(m: nat, rest: string)
    requires rest == [] || !IsDigit(rest[0])
    ensures ReadInt("-" + NatDigits(m) + rest) == Some((0 - m, rest))
  {
    ReadNatDigits(m, rest);
    ReadSigned(NatDigits(m) + rest, m, rest);
    assert "-" + NatDigits(m) + rest == "-" + (NatDigits(m) + rest);
  }

  /** Reading back the text of `n`, followed by anything that is not a digit, gives `n` and that text. */
  lemma ShowThenRead(n: int, rest: string)
    requires rest == [] || !IsDigit(rest[0])
    ensures ReadInt(Show(n) + rest) == Some((n, rest))
  {
    if n < 0 {
      ReadNegative(-n, rest);
    } else {
      ReadNatDigits(n, rest);
      assert (NatDigits(n) + rest)[0] == NatDigits(n)[0];
    }
  }
}

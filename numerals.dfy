/** Decimal text of integers: what `out << int` writes and what `std::stoi` reads back
    (json.hpp:229, 322-324). */
module Numerals {
  import opened JsonValue

  const IntMax: int := 0x7fff_ffff

  predicate IsDigit(c: char)
  {
    '0' <= c <= '9'
  }

  predicate AllDigits(s: string)
  {
    forall i :: 0 <= i < |s| ==> IsDigit(s[i])
  }

  function DigitChar(d: nat): (c: char)
    requires d < 10
    ensures IsDigit(c)
  {
    (48 + d) as char
  }

  function DigitValue(c: char): (d: nat)
    requires IsDigit(c)
    ensures d < 10
  {
    c as int - 48
  }

  /** The decimal text of `n`, without sign or leading zeros. */
  function NatText(n: nat): (r: string)
    ensures |r| > 0 && AllDigits(r)
    ensures n < 10 <==> |r| == 1
  {
    if n < 10 then [DigitChar(n)] else NatText(n / 10) + [DigitChar(n % 10)]
  }

  /** What `out << i` writes for a C++ `int`. */
  function IntText(i: int): (r: string)
    ensures |r| > 0
    ensures i >= 0 ==> r == NatText(i)
    ensures i < 0 ==> r[0] == '-' && r[1..] == NatText(-i)
  {
    if i < 0 then "-" + NatText(-i) else NatText(i)
  }

  /** The number a run of digits denotes. */
  function DigitsValue(ds: string): nat
    requires AllDigits(ds)
  {
    if ds == [] then 0 else DigitsValue(ds[..|ds| - 1]) * 10 + DigitValue(ds[|ds| - 1])
  }

  /** Reading the digits `NatText` writes gives back the number. */
  lemma {:induction false} NatTextValue(n: nat)
    ensures DigitsValue(NatText(n)) == n
  {
    if n >= 10 {
      NatTextValue(n / 10);
      var t := NatText(n);
      assert t[..|t| - 1] == NatText(n / 10);
    }
  }

  /** The longest prefix of `b` made of digits. */
  function LeadingDigits(b: string): (r: string)
    ensures r <= b && AllDigits(r)
    ensures |r| < |b| ==> !IsDigit(b[|r|])
  {
    if b == [] || !IsDigit(b[0]) then [] else [b[0]] + LeadingDigits(b[1..])
  }

  /** `std::stoi(buffer)` on the buffers the reader hands it, which never start with
      white space or a sign: the value of the leading digits; `invalid_argument` when
      there are none and `out_of_range` when they exceed `INT_MAX`. */
  function Stoi(b: string): (r: Result<Int32>)
    ensures r.Failure? ==> r.error == StoiInvalidArgument || r.error == StoiOutOfRange
    ensures (r.Failure? && r.error == StoiInvalidArgument) <==> (b == [] || !IsDigit(b[0]))
    ensures r.Success? ==> 0 <= r.value <= IntMax && r.value == DigitsValue(LeadingDigits(b))
    ensures r.Success? <==> b != [] && IsDigit(b[0]) && DigitsValue(LeadingDigits(b)) <= IntMax
  {
    var ds := LeadingDigits(b);
    if ds == [] then Failure(StoiInvalidArgument)
    else if DigitsValue(ds) > IntMax then Failure(StoiOutOfRange)
    else Success(DigitsValue(ds))
  }

  /** The digits of a string that is digits throughout are the string itself. */
  lemma {:induction false} LeadingDigitsOfDigits(ds: string)
    requires AllDigits(ds)
    ensures LeadingDigits(ds) == ds
  {
    if ds != [] {
      LeadingDigitsOfDigits(ds[1..]);
      assert [ds[0]] + ds[1..] == ds;
    }
  }

  /** `std::stoi` reads back what `out << int` wrote, for every int that is not negative. */
  lemma StoiOfText(n: nat)
    requires n <= IntMax
    ensures Stoi(NatText(n)) == Success(n)
  {
    LeadingDigitsOfDigits(NatText(n));
    NatTextValue(n);
  }
}

/** Small value helpers shared by the product-details and cart screens:
    an Option type, decimal digit strings (the quantity text field and the
    `${n}` interpolations) and ASCII lower-casing. */
module Common {

  datatype Option<+T> = None | Some(value: T)

  predicate IsDigit(c: char) {
    '0' <= c <= '9'
  }

  predicate IsDigits(s: string) {
    forall i :: 0 <= i < |s| ==> IsDigit(s[i])
  }

  function DigitValue(c: char): (d: nat)
    requires IsDigit(c)
    ensures d < 10
  {
    c as int - '0' as int
  }

  function DigitChar(d: nat): (c: char)
    requires d < 10
    ensures IsDigit(c) && DigitValue(c) == d
  {
    ('0' as int + d) as char
  }

  /** The number a string of decimal digits denotes: `parseInt(s)` for a
      digit string whose value is below 2^53, where JavaScript numbers are
      exact (the empty string is never parsed by the callers). */
  function ParseDigits(s: string): nat
    requires IsDigits(s)
  {
    if |s| == 0 then 0 else 10 * ParseDigits(s[..|s| - 1]) + DigitValue(s[|s| - 1])
  }

  /** Decimal rendering of a natural number, as `${n}` or `n.toString()` does
      for a JavaScript number below 2^53. */
  function NatToString(n: nat): (s: string)
    ensures |s| >= 1 && IsDigits(s)
  {
    if n < 10 then [DigitChar(n)] else NatToString(n / 10) + [DigitChar(n % 10)]
  }

  /** Decimal rendering of an integer, with a leading '-' when it is negative. */
  function IntToString(i: int): (s: string)
    ensures |s| >= 1
    ensures i >= 0 ==> s == NatToString(i)
    ensures i < 0 ==> s == "-" + NatToString(-i)
  {
    if i >= 0 then NatToString(i) else "-" + NatToString(-i)
  }

  /** Parsing the rendering of a number gives the number back. */
  lemma {:induction false} ParseNatToString(n: nat)
    ensures ParseDigits(NatToString(n)) == n
  {
    var s := NatToString(n);
    if n >= 10 {
      assert s[..|s| - 1] == NatToString(n / 10);
      ParseNatToString(n / 10);
    } else {
      assert s[..|s| - 1] == [];
    }
  }

  /** Distinct numbers render distinctly. */
  lemma NatToStringInjective(a: nat, b: nat)
    requires a != b
    ensures NatToString(a) != NatToString(b)
  {
    ParseNatToString(a);
    ParseNatToString(b);
  }

  /** The quantity a quantity text field stores: an empty field or a
      value that parses to zero resets it to 1. */
  function QuantityFromText(text: string): (q: int)
    requires IsDigits(text)
    ensures q >= 1
    ensures |text| > 0 && ParseDigits(text) > 0 ==> q == ParseDigits(text)
    ensures |text| == 0 || ParseDigits(text) == 0 ==> q == 1
  {
    if |text| <= 0 || ParseDigits(text) <= 0 then 1 else ParseDigits(text)
  }

  /** Typing back the quantity the field displays leaves the quantity as it was. */
  lemma QuantityTextRoundTrip(n: nat)
    requires n >= 1
    ensures QuantityFromText(NatToString(n)) == n
  {
    ParseNatToString(n);
  }

  /** `toLowerCase` restricted to the ASCII letters. */
  function LowerAscii(c: char): (l: char)
    ensures 'A' <= c <= 'Z' ==> l as int == c as int + 32
    ensures !('A' <= c <= 'Z') ==> l == c
  {
    if 'A' <= c <= 'Z' then (c as int + 32) as char else c
  }
}

/**
 * Int32.ToString() under the invariant culture: an optional `-` and the
 * decimal digits of the magnitude, with no leading zero.
 */
module Decimal {
  import opened Wrappers

  /** C#'s `int`. */
  newtype int32 = x: int | -0x8000_0000 <= x < 0x8000_0000

  predicate IsDigit(c: char) {
    '0' <= c <= '9'
  }

  function DigitChar(d: int): (c: char)
    requires 0 <= d < 10
    ensures IsDigit(c) && c as int - '0' as int == d
  {
    ('0' as int + d) as char
  }

  /** The decimal digits of `n`. */
  function NatToString(n: nat): (r: string)
    ensures 0 < |r|
    ensures forall i | 0 <= i < |r| :: IsDigit(r[i])
    ensures r[0] == '0' ==> n == 0 && r == "0"
  {
    if n < 10 then [DigitChar(n)] else NatToString(n / 10) + [DigitChar(n % 10)]
  }

  /** `page.ToString()`. */
  function ToString(n: int): (r: string)
    ensures 0 < |r|
    ensures forall i | 0 <= i < |r| :: IsDigit(r[i]) || r[i] == '-'
    ensures r[0] == '-' <==> n < 0
    ensures n < 0 ==> 1 < |r| && r[1] != '0'
    ensures r[0] == '0' ==> r == "0"
  {
    if n < 0 then "-" + NatToString(-n) else NatToString(n)
  }

  /** The value of a non-empty run of decimal digits. */
  function ParseNat(s: string): Option<nat> {
    if s == [] || !IsDigit(s[|s| - 1]) then None
    else
      var d := s[|s| - 1] as int - '0' as int;
      if |s| == 1 then Some(d)
      else match ParseNat(s[..|s| - 1])
        case None => None
        case Some(m) => Some(m * 10 + d)
  }

  /** The integer a decimal rendering denotes, the inverse of ToString. */
  function Parse(s: string): Option<int> {
    if s != [] && s[0] == '-' then
      match ParseNat(s[1..])
      case None => None
      case Some(m) => Some(-(m as int))
    else ParseNat(s)
  }

  lemma {:induction false} ParseNatToString(n: nat)
    ensures ParseNat(NatToString(n)) == Some(n)
  {
    if n >= 10 {
      var s := NatToString(n);
      assert s[..|s| - 1] == NatToString(n / 10);
      ParseNatToString(n / 10);
    }
  }

  /** The rendering of a number reads back as that number. */
  lemma ParseToString(n: int)
    ensures Parse(ToString(n)) == Some(n)
  {
    if n < 0 {
      ParseNatToString(-n);
      assert ToString(n)[1..] == NatToString(-n);
    } else {
      ParseNatToString(n);
    }
  }
}

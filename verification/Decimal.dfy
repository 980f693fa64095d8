/** Integers as decimal text, and back. */
module Decimal {
  import opened Outcomes

  predicate IsDigit(c: char) { '0' <= c <= '9' }

  predicate AllDigits(s: string) { forall i | 0 <= i < |s| :: IsDigit(s[i]) }

  function DigitChar(d: nat): (c: char)
    requires d < 10
    ensures IsDigit(c)
  {
    '0' + d as char
  }

  function FromNat(n: nat): (s: string)
    ensures s != "" && AllDigits(s)
  {
    if n < 10 then [DigitChar(n)] else FromNat(n / 10) + [DigitChar(n % 10)]
  }

  function ToNat(s: string): nat
    requires AllDigits(s)
  {
    if s == "" then 0 else ToNat(s[..|s| - 1]) * 10 + (s[|s| - 1] as int - '0' as int)
  }

  lemma {:induction false} NatRoundTrip(n: nat)
    ensures ToNat(FromNat(n)) == n
  {
    if n >= 10 {
      NatRoundTrip(n / 10);
      assert FromNat(n)[..|FromNat(n)| - 1] == FromNat(n / 10);
    } else {
      assert [DigitChar(n)][..0] == "";
    }
  }

  function FromInt(i: int): string {
    if i < 0 then "-" + FromNat(-i) else FromNat(i)
  }

  predicate IsIntText(s: string) {
    s != "" && (if s[0] == '-' then |s| > 1 && AllDigits(s[1..]) else AllDigits(s))
  }

  function ToInt(s: string): int
    requires IsIntText(s)
  {
    if s[0] == '-' then 0 - ToNat(s[1..]) else ToNat(s)
  }

  lemma IntRoundTrip(i: int)
    ensures IsIntText(FromInt(i)) && ToInt(FromInt(i)) == i
  {
    if i < 0 {
      NatRoundTrip(-i);
      assert FromInt(i)[1..] == FromNat(-i);
    } else {
      NatRoundTrip(i);
    }
  }

  function ParseNat(s: string): Option<nat> {
    if s != "" && AllDigits(s) then Some(ToNat(s)) else None
  }
}

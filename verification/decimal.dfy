/** Base-ten integers as strconv.FormatInt, strconv.ParseInt and fmt's %d write and read them. */
module Decimal {
  import opened Texts

  const MIN_INT64: int := -0x8000_0000_0000_0000
  const MAX_INT64: int := 0x7fff_ffff_ffff_ffff

  predicate InInt64(n: int) {
    MIN_INT64 <= n <= MAX_INT64
  }

  predicate IsDigit(c: Byte) {
    '0' <= c <= '9'
  }

  predicate AllDigits(s: Text) {
    forall i :: 0 <= i < |s| ==> IsDigit(s[i])
  }

  function Digit(d: nat): (c: Byte)
    requires d < 10
    ensures IsDigit(c)
  {
    ('0' as int + d) as char
  }

  function DigitValue(c: Byte): (d: nat)
    requires IsDigit(c)
    ensures d < 10 && Digit(d) == c
  {
    c as int - '0' as int
  }

  function OfNat(n: nat): (s: Text)
    ensures s != [] && AllDigits(s)
  {
    if n < 10 then [Digit(n)] else OfNat(n / 10) + [Digit(n % 10)]
  }

  function NatValue(s: Text): (n: nat)
    requires AllDigits(s)
  {
    if s == [] then 0 else NatValue(s[..|s| - 1]) * 10 + DigitValue(s[|s| - 1])
  }

  function OfInt(n: int): (s: Text)
    ensures s != [] && (forall i :: 0 <= i < |s| ==> IsDigit(s[i]) || s[i] == '-')
  {
    if n < 0 then "-" + OfNat(-n) else OfNat(n)
  }

  /** strconv.ParseInt(s, 10, 64): an optional sign, at least one digit, within 64 bits. */
  function ParseInt(s: Text): (r: Option<int>)
    ensures r.Some? ==> InInt64(r.value)
  {
    var negative := s != [] && s[0] == '-';
    var digits := if s != [] && (s[0] == '-' || s[0] == '+') then s[1..] else s;
    if digits == [] || !AllDigits(digits) then None
    else
      var n: int := if negative then 0 - NatValue(digits) else NatValue(digits);
      if InInt64(n) then Some(n) else None
  }

  lemma {:induction false} NatRoundTrip(n: nat)
    ensures NatValue(OfNat(n)) == n
  {
    if n >= 10 {
      NatRoundTrip(n / 10);
      var s := OfNat(n);
      assert s[..|s| - 1] == OfNat(n / 10);
    }
  }

  /** A printed number reads back as itself, or not at all when it needs more than 64 bits. */
  lemma IntRoundTrip(n: int)
    ensures ParseInt(OfInt(n)) ==
            if -9_223_372_036_854_775_808 <= n <= 9_223_372_036_854_775_807 then Some(n) else None
  {
    hide OfNat, NatValue;
    if n < 0 {
      NatRoundTrip(-n);
      assert OfInt(n)[1..] == OfNat(-n);
    } else {
      NatRoundTrip(n);
      assert IsDigit(OfNat(n)[0]);
    }
  }

  lemma OfIntInjective(a: int, b: int)
    requires OfInt(a) == OfInt(b)
    ensures a == b
  {
    assert forall n: nat :: IsDigit(OfNat(n)[0]);
    assert a < 0 <==> OfInt(a)[0] == '-';
    assert b < 0 <==> OfInt(b)[0] == '-';
    if a < 0 {
      assert OfNat(-a) == OfInt(a)[1..] == OfInt(b)[1..] == OfNat(-b);
      NatRoundTrip(-a);
      NatRoundTrip(-b);
    } else {
      NatRoundTrip(a);
      NatRoundTrip(b);
    }
  }
}

/**
  Decimal rendering of integers, as Python's `%s` and `six.text_type` print them
  in response headers, and the matching reader used to state round trips.
*/
module Decimal {

  import opened Wrappers

  predicate IsDigit(ch: char) {
    '0' <= ch <= '9'
  }

  predicate AllDigits(s: string) {
    forall i :: 0 <= i < |s| ==> IsDigit(s[i])
  }

  function DigitChar(d: nat): (ch: char)
    requires d < 10
    ensures IsDigit(ch) && (ch as int) - ('0' as int) == d
  {
    (('0' as int) + d) as char
  }

  function DigitValue(ch: char): nat
    requires IsDigit(ch)
  {
    (ch as int) - ('0' as int)
  }

  /** The decimal digits of a natural number, without leading zeros. */
  function NatToString(n: nat): (s: string)
    ensures |s| >= 1 && AllDigits(s)
    decreases n
  {
    if n < 10 then [DigitChar(n)] else NatToString(n / 10) + [DigitChar(n % 10)]
  }

  /** The number a string of digits denotes. */
  function DigitsValue(s: string): nat
    requires AllDigits(s)
  {
    if |s| == 0 then 0 else DigitsValue(s[..|s| - 1]) * 10 + DigitValue(s[|s| - 1])
  }

  /** `%s` of an integer: a minus sign for negative values, then the digits. */
  function IntToString(i: int): (s: string)
    ensures |s| >= 1
  {
    if i < 0 then "-" + NatToString(-i) else NatToString(i)
  }

  /** The length of the longest prefix of `s` made of digits. */
  function DigitRunLength(s: string): (k: nat)
    ensures k <= |s| && AllDigits(s[..k])
    ensures k < |s| ==> !IsDigit(s[k])
  {
    if |s| == 0 || !IsDigit(s[0]) then 0
    else
      var k := 1 + DigitRunLength(s[1..]);
      assert forall i :: 1 <= i < k ==> s[..k][i] == s[1..][..k - 1][i - 1];
      k
  }

  /** Reads the decimal digits at the start of `s`; `None` when there are none. */
  function ReadNat(s: string): Option<(nat, string)> {
    var k := DigitRunLength(s);
    if k == 0 then None else Some((DigitsValue(s[..k]), s[k..]))
  }

  /**
    Reads an optionally negative decimal integer at the start of `s` and returns
    it with the rest of the string; `None` when no digit follows.
  */
  function ReadInt(s: string): Option<(int, string)> {
    if |s| > 0 && s[0] == '-' then
      var r := ReadNat(s[1..]);
      if r.None? then None else Some((0 - r.value.0, r.value.1))
    else
      var r := ReadNat(s);
      if r.None? then None else Some((r.value.0 as int, r.value.1))
  }

  /** Reading back the digits of `n` gives `n`. */
  lemma {:induction false} NatToStringRoundTrip(n: nat)
    ensures DigitsValue(NatToString(n)) == n
    decreases n
  {
    if n >= 10 {
      var s := NatToString(n);
      assert s[..|s| - 1] == NatToString(n / 10);
      NatToStringRoundTrip(n / 10);
    }
  }

  /** The digit run of a digit string followed by a non-digit is exactly that string. */
  lemma {:induction false} DigitRunOfDigits(ds: string, rest: string)
    requires AllDigits(ds)
    requires rest == [] || !IsDigit(rest[0])
    ensures DigitRunLength(ds + rest) == |ds|
    decreases |ds|
  {
    if |ds| > 0 {
      assert (ds + rest)[1..] == ds[1..] + rest;
      DigitRunOfDigits(ds[1..], rest);
    } else {
      assert ds + rest == rest;
    }
  }

  /** Reading an integer back from its rendering returns it and the untouched rest. */
  lemma ReadIntRoundTrip(i: int, rest: string)
    requires rest == [] || !IsDigit(rest[0])
    ensures ReadInt(IntToString(i) + rest) == Some((i, rest))
  {
    if i < 0 {
      ReadNegativeRoundTrip(-i, rest);
    } else {
      ReadNonNegativeRoundTrip(i, rest);
    }
  }

  /** A minus sign and the digits of a positive `n` read back as -n. */
  lemma ReadNegativeRoundTrip(n: nat, rest: string)
    requires n > 0
    requires rest == [] || !IsDigit(rest[0])
    ensures ReadInt("-" + NatToString(n) + rest) == Some((0 - n, rest))
  {
    var s := "-" + NatToString(n) + rest;
    assert s[0] == '-' && s[1..] == NatToString(n) + rest;
    ReadNatRoundTrip(n, rest);
  }

  /** The digits of `n` alone read back as `n`: no sign is taken. */
  lemma ReadNonNegativeRoundTrip(n: nat, rest: string)
    requires rest == [] || !IsDigit(rest[0])
    ensures ReadInt(NatToString(n) + rest) == Some((n, rest))
  {
    var s := NatToString(n) + rest;
    ReadNatRoundTrip(n, rest);
    assert s[0] == NatToString(n)[0];
    assert IsDigit(s[0]);
  }

  /** The digits of `n` followed by a non-digit read back as `n` and that rest. */
  lemma ReadNatRoundTrip(n: nat, rest: string)
    requires rest == [] || !IsDigit(rest[0])
    ensures ReadNat(NatToString(n) + rest) == Some((n, rest))
  {
    var digits := NatToString(n);
    var body := digits + rest;
    DigitRunOfDigits(digits, rest);
    assert body[..|digits|] == digits;
    assert body[|digits|..] == rest;
    NatToStringRoundTrip(n);
  }

  /** A rendered integer on its own reads back with nothing left over. */
  lemma ReadIntAlone(i: int)
    ensures ReadInt(IntToString(i)) == Some((i, ""))
  {
    ReadIntRoundTrip(i, []);
    assert IntToString(i) + [] == IntToString(i);
  }
}

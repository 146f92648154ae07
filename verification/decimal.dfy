/** Decimal rendering of counters and integers, as Rust's `format!("{}", n)` and
    `to_string()` produce it, together with its inverse.  Registry identifiers
    (`tunnel-<n>`, `mssql-<n>`) and the string form of 128-bit integers are built
    from these renderings; the inverse is what shows that two different counters
    can never render to the same identifier. */
module Decimal {
  import opened Wrappers

  predicate IsDigit(c: char) {
    '0' <= c <= '9'
  }

  predicate AllDigits(s: string) {
    forall i | 0 <= i < |s| :: IsDigit(s[i])
  }

  function DigitChar(d: nat): (c: char)
    requires d < 10
    ensures IsDigit(c)
    ensures c as int - '0' as int == d
  {
    ('0' as int + d) as char
  }

  function DigitValue(c: char): nat
    requires IsDigit(c)
  {
    c as int - '0' as int
  }

  /** The shortest decimal rendering of `n`: digits only, no sign, and no leading
      zero unless `n` is zero itself. */
  function NatToString(n: nat): (s: string)
    ensures 1 <= |s|
    ensures AllDigits(s)
    ensures |s| > 1 ==> s[0] != '0'
    decreases n
  {
    if n < 10 then [DigitChar(n)] else NatToString(n / 10) + [DigitChar(n % 10)]
  }

  /** The value of a string of digits, most significant first. */
  function DigitsValue(s: string): nat
    requires AllDigits(s)
    decreases |s|
  {
    if |s| == 0 then 0 else DigitsValue(s[..|s| - 1]) * 10 + DigitValue(s[|s| - 1])
  }

  /** Reads back a rendering of `NatToString`; anything else (empty, a non-digit, a
      leading zero) is refused. */
  function ParseNat(s: string): Option<nat> {
    if 1 <= |s| && AllDigits(s) && (|s| == 1 || s[0] != '0') then Some(DigitsValue(s)) else None
  }

  lemma {:induction false} DigitsValueOfNatToString(n: nat)
    ensures DigitsValue(NatToString(n)) == n
    decreases n
  {
    if n >= 10 {
      var s := NatToString(n / 10);
      var t := s + [DigitChar(n % 10)];
      assert t[..|t| - 1] == s;
      DigitsValueOfNatToString(n / 10);
    }
  }

  lemma NatRoundTrip(n: nat)
    ensures ParseNat(NatToString(n)) == Some(n)
  {
    DigitsValueOfNatToString(n);
  }

  /** Rust's `i128::to_string`: a leading minus sign for negative values. */
  function IntToString(i: int): (s: string)
    ensures 1 <= |s|
    ensures i < 0 <==> s[0] == '-'
  {
    if i < 0 then "-" + NatToString(-i) else NatToString(i)
  }

  function ParseInt(s: string): Option<int> {
    if 1 <= |s| && s[0] == '-' then
      match ParseNat(s[1..])
      case Some(n) => if n == 0 then None else Some(0 - n as int)
      case None => None
    else
      match ParseNat(s)
      case Some(n) => Some(n)
      case None => None
  }

  lemma IntRoundTrip(i: int)
    ensures ParseInt(IntToString(i)) == Some(i)
  {
    if i < 0 {
      var s := IntToString(i);
      assert s[1..] == NatToString(-i);
      NatRoundTrip(-i);
    } else {
      NatRoundTrip(i);
    }
  }

  /** A registry identifier: a fixed prefix followed by the decimal counter. */
  function FormatId(prefix: string, n: nat): (id: string)
    ensures |prefix| < |id| && id[..|prefix|] == prefix
  {
    prefix + NatToString(n)
  }

  function ParseId(prefix: string, id: string): Option<nat> {
    if |prefix| <= |id| && id[..|prefix|] == prefix then ParseNat(id[|prefix|..]) else None
  }

  lemma IdRoundTrip(prefix: string, n: nat)
    ensures ParseId(prefix, FormatId(prefix, n)) == Some(n)
  {
    var id := FormatId(prefix, n);
    assert id[|prefix|..] == NatToString(n);
    NatRoundTrip(n);
  }

  /** Two counters render to the same identifier only if they are equal. */
  lemma FormatIdInjective(prefix: string, a: nat, b: nat)
    ensures FormatId(prefix, a) == FormatId(prefix, b) <==> a == b
  {
    IdRoundTrip(prefix, a);
    IdRoundTrip(prefix, b);
  }
}

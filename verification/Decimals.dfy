/** Numbers in decimal digits, written and read back. */
module Decimals {
  const DIGITS: string := "0123456789abcdef"

  function Decimal(n: nat): (r: string)
    ensures r != ""
  {
    if n < 10 then [DIGITS[n]] else Decimal(n / 10) + [DIGITS[n % 10]]
  }

  /** The decimal number that ends before position `end`, and where it starts. */
  function ReadNumber(s: string, end: nat): nat
    requires end <= |s|
  {
    if end > 0 && '0' <= s[end - 1] <= '9' then ReadNumber(s, end - 1) * 10 + (s[end - 1] as int - '0' as int) else 0
  }

  /** Reading undoes writing, whatever stands around. */
  lemma {:induction false} ReadDecimal(prefix: string, n: nat, rest: string)
    requires prefix == "" || !('0' <= prefix[|prefix| - 1] <= '9')
    ensures ReadNumber(prefix + Decimal(n) + rest, |prefix| + |Decimal(n)|) == n
  {
    hide ReadNumber, Decimal;
    var s := prefix + Decimal(n) + rest;
    var front := if n < 10 then "" else Decimal(n / 10);
    var digit := [DIGITS[n % 10]];
    DigitIs(n % 10);
    LastDigit(n);
    assert s == prefix + front + (digit + rest) && s[|prefix| + |front|] == DIGITS[n % 10];
    if n < 10 {
      NoDigit(s, |prefix|);
    } else {
      ReadDecimal(prefix, n / 10, digit + rest);
    }
    OneDigitMore(s, |prefix| + |front|);
  }

  lemma LastDigit(n: nat)
    ensures Decimal(n) == (if n < 10 then "" else Decimal(n / 10)) + [DIGITS[n % 10]]
  {}

  lemma NoDigit(s: string, end: nat)
    requires end <= |s| && (end == 0 || !('0' <= s[end - 1] <= '9'))
    ensures ReadNumber(s, end) == 0
  {}

  lemma OneDigitMore(s: string, end: nat)
    requires end < |s| && '0' <= s[end] <= '9'
    ensures ReadNumber(s, end + 1) == ReadNumber(s, end) * 10 + (s[end] as int - '0' as int)
  {}

  lemma DigitIs(d: int)
    requires 0 <= d < 10
    ensures '0' <= DIGITS[d] <= '9' && DIGITS[d] as int - '0' as int == d
  {
    assert DIGITS == ['0', '1', '2', '3', '4', '5', '6', '7', '8', '9', 'a', 'b', 'c', 'd', 'e', 'f'];
  }

  lemma {:induction false} DecimalIsDigits(n: nat)
    ensures forall i | 0 <= i < |Decimal(n)| :: '0' <= Decimal(n)[i] <= '9'
  {
    DigitIs(n % 10);
    if n >= 10 {
      DecimalIsDigits(n / 10);
    }
  }
}

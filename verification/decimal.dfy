/** Decimal printing and reading (strconv.Itoa and strconv.Atoi) on unbounded integers. */
module Decimal {
  import opened Types

  function Digit(d: nat): char
    requires d < 10
  {
    ('0' as int + d) as char
  }

  predicate IsDigit(c: char) {
    '0' <= c <= '9'
  }

  function Digits(n: nat): string {
    (if n < 10 then "" else Digits(n / 10)) + [Digit(n % 10)]
  }

  function Itoa(i: int): string {
    if i < 0 then "-" + Digits(-i) else Digits(i)
  }

  /** Reads an unsigned decimal; None on anything that is not a digit. */
  function ParseDigits(s: string): Option<nat> {
    if s == [] then Some(0)
    else
      var front := ParseDigits(s[..|s| - 1]);
      var c := s[|s| - 1];
      if front.Some? && IsDigit(c) then Some(10 * front.value + (c as int - '0' as int)) else None
  }

  function Unsigned(s: string, sign: int): Option<int> {
    match ParseDigits(s)
    case None => None
    case Some(n) => if s == [] then None else Some(sign * n)
  }

  function Atoi(s: string): Option<int> {
    if s != [] && s[0] == '-' then Unsigned(s[1..], -1)
    else if s != [] && s[0] == '+' then Unsigned(s[1..], 1)
    else Unsigned(s, 1)
  }

  lemma {:induction false} DigitsAreDigits(n: nat)
    ensures |Digits(n)| > 0 && forall i :: 0 <= i < |Digits(n)| ==> IsDigit(Digits(n)[i])
  {
    if n >= 10 { DigitsAreDigits(n / 10); }
  }

  /** Digits only, behind the dash of a negative number. */
  lemma ItoaChars(i: int)
    ensures |Itoa(i)| > 0
    ensures forall k :: 0 <= k < |Itoa(i)| ==> if i < 0 && k == 0 then Itoa(i)[k] == '-' else IsDigit(Itoa(i)[k])
  {
    DigitsAreDigits(if i < 0 then -i else i);
  }

  lemma {:induction false} ParsePrinted(n: nat)
    ensures ParseDigits(Digits(n)) == Some(n)
  {
    if n >= 10 {
      ParsePrinted(n / 10);
      assert Digits(n)[..|Digits(n)| - 1] == Digits(n / 10);
    } else {
      assert Digits(n)[..|Digits(n)| - 1] == [];
    }
  }

  lemma AtoiSigned(s: string, n: int)
    requires s != [] && IsDigit(s[0]) && ParseDigits(s).Some? && ParseDigits(s).value == n
    ensures Atoi(s) == Some(n) && Atoi("-" + s) == Some(-n)
  {
    assert ("-" + s)[1..] == s;
  }

  /** Every port survives being printed and read back. */
  lemma AtoiItoa(i: int)
    ensures Atoi(Itoa(i)) == Some(i)
  {
    var n := if i < 0 then -i else i;
    DigitsAreDigits(n);
    ParsePrinted(n);
    AtoiSigned(Digits(n), n);
  }

  lemma ItoaInjective(i: int, j: int)
    requires Itoa(i) == Itoa(j)
    ensures i == j
  {
    AtoiItoa(i);
    AtoiItoa(j);
  }
}

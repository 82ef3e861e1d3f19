/**
 Decimal numerals, written by strconv.Itoa and read by strconv.Atoi on 64-bit integers.
 */
module Numerals {
  import opened Basics

  predicate IsDigit(c: char) { '0' <= c <= '9' }

  function Decimal(n: nat): (s: string)
    ensures |s| >= 1 && forall i :: 0 <= i < |s| ==> IsDigit(s[i])
  {
    if n < 10 then [('0' as int + n) as char] else Decimal(n / 10) + [('0' as int + n % 10) as char]
  }

  function Value(s: string): nat
    requires forall i :: 0 <= i < |s| ==> IsDigit(s[i])
  {
    if s == "" then 0 else
      assert IsDigit(s[|s| - 1]);
      Value(s[..|s| - 1]) * 10 + (s[|s| - 1] as int - '0' as int)
  }

  lemma {:induction false} ValueDecimal(n: nat)
    ensures Value(Decimal(n)) == n
  {
    var s := Decimal(n);
    if n >= 10 {
      ValueDecimal(n / 10);
      assert s[..|s| - 1] == Decimal(n / 10);
    } else {
      assert s[..|s| - 1] == "";
    }
  }

  const MAX_INT: int := 0x7FFF_FFFF_FFFF_FFFF

  predicate IsInt(n: int) { -MAX_INT - 1 <= n <= MAX_INT }

  function Itoa(n: int): string {
    if n < 0 then "-" + Decimal(-n) else Decimal(n)
  }

  predicate AllDigits(s: string) {
    s != "" && forall i :: 0 <= i < |s| ==> IsDigit(s[i])
  }

  function InRange(n: int): Option<int> { if IsInt(n) then Some(n) else None }

  function Atoi(s: string): Option<int> {
    if AllDigits(s) then InRange(Value(s))
    else if s != "" && s[0] == '-' && AllDigits(s[1..]) then InRange(0 - Value(s[1..]))
    else if s != "" && s[0] == '+' && AllDigits(s[1..]) then InRange(Value(s[1..]))
    else None
  }

  lemma ReadsNegative(d: string)
    requires AllDigits(d)
    ensures Atoi("-" + d) == InRange(0 - Value(d))
  {
    var s := "-" + d;
    assert s[1..] == d && !IsDigit(s[0]);
  }

  lemma ReadsPositive(d: string)
    requires AllDigits(d)
    ensures Atoi(d) == InRange(Value(d))
  {
  }

  lemma AtoiItoa(n: int)
    requires IsInt(n)
    ensures Atoi(Itoa(n)) == Some(n)
  {
    if n < 0 {
      ValueDecimal(-n);
      ReadsNegative(Decimal(-n));
    } else {
      ValueDecimal(n);
      ReadsPositive(Decimal(n));
    }
  }

  lemma ItoaChars(n: int)
    ensures Itoa(n) != "" && forall i :: 0 <= i < |Itoa(n)| ==> IsDigit(Itoa(n)[i]) || Itoa(n)[i] == '-'
  {
  }

  /** No numeral but that of zero starts with a zero, and the digits stand in the usual order. */
  lemma {:induction false} DecimalShape(n: nat)
    ensures n > 0 ==> Decimal(n)[0] != '0'
    ensures Decimal(0) == "0" && Decimal(9) == "9" && Decimal(10) == "10"
  {
    if n >= 10 {
      DecimalShape(n / 10);
      assert Decimal(n)[0] == Decimal(n / 10)[0];
    }
    assert Decimal(10) == Decimal(1) + ['0'];
  }

  /** The value of the digits, the last one counting least; a sign may stand before them. */
  lemma AtoiShape(d: string, c: char)
    requires AllDigits(d) && IsDigit(c)
    ensures Value(d + [c]) == 10 * Value(d) + (c as int - '0' as int)
    ensures Atoi(d) == Atoi("+" + d) == if Value(d) <= 0x7FFF_FFFF_FFFF_FFFF then Some(Value(d)) else None
    ensures Atoi("-" + d) == if Value(d) <= 0x8000_0000_0000_0000 then Some(0 - Value(d) as int) else None
    ensures Atoi("").None?
  {
    assert (d + [c])[..|d|] == d;
    assert ("+" + d)[1..] == d && ("-" + d)[1..] == d && !IsDigit('+') && !IsDigit('-');
    assert ("+" + d)[0] == '+' && ("-" + d)[0] == '-';
  }
}

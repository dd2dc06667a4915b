/** Digit strings and the numbers they spell, as formatting and scanning in decimal treat them. */
module Decimals {
  import opened Basics

  predicate IsDigit(c: char) { '0' <= c <= '9' }

  predicate Digits(s: string) { forall i :: 0 <= i < |s| ==> IsDigit(s[i]) }

  function DigitValue(c: char): int { c as int - '0' as int }

  function DigitChar(d: nat): (c: char)
    requires d < 10
    ensures IsDigit(c) && DigitValue(c) == d
  {
    ('0' as int + d) as char
  }

  /** The number a digit string spells. */
  function Nat(s: string): (n: nat)
    requires Digits(s)
    decreases |s|
  {
    if s == "" then 0 else Nat(Front(s)) * 10 + DigitValue(Last(s))
  }

  /** An integer with `k` decimal zeros appended. */
  function Shift(c: int, k: nat): int
    decreases k
  {
    if k == 0 then c else 10 * Shift(c, k - 1)
  }

  function Zeros(k: nat): (z: string)
    ensures |z| == k && Digits(z) && forall i :: 0 <= i < k ==> z[i] == '0'
  {
    seq(k, _ => '0')
  }

  lemma NatSnoc(s: string, c: char)
    requires Digits(s) && IsDigit(c)
    ensures Digits(s + [c]) && Nat(s + [c]) == Nat(s) * 10 + DigitValue(c)
  {
    assert Front(s + [c]) == s;
  }

  lemma {:induction false} NatAppendZeros(s: string, k: nat)
    requires Digits(s)
    ensures Digits(s + Zeros(k)) && Nat(s + Zeros(k)) == Shift(Nat(s), k)
    decreases k
  {
    if k == 0 {
      assert s + Zeros(k) == s;
    } else {
      NatAppendZeros(s, k - 1);
      assert s + Zeros(k) == (s + Zeros(k - 1)) + ['0'];
      NatSnoc(s + Zeros(k - 1), '0');
    }
  }

  lemma {:induction false} NatPrependZeros(k: nat, t: string)
    requires Digits(t)
    ensures Digits(Zeros(k) + t) && Nat(Zeros(k) + t) == Nat(t)
    decreases |t|
  {
    if t == "" {
      assert Zeros(k) + t == "" + Zeros(k);
      NatAppendZeros("", k);
      ShiftZero(k);
    } else {
      NatPrependZeros(k, Front(t));
      assert Zeros(k) + t == (Zeros(k) + Front(t)) + [Last(t)];
      NatSnoc(Zeros(k) + Front(t), Last(t));
    }
  }

  lemma {:induction false} ShiftZero(k: nat)
    ensures Shift(0, k) == 0
  {
    if k > 0 { ShiftZero(k - 1); }
  }

  /** A digit string with a nonzero first digit spells a positive number. */
  lemma {:induction false} NatPositive(s: string)
    requires Digits(s) && s != "" && s[0] != '0'
    ensures Nat(s) > 0
    decreases |s|
  {
    if |s| > 1 { NatPositive(Front(s)); }
  }

  /** Digit strings without a leading zero are determined by their value. */
  lemma {:induction false} NatInjective(s: string, t: string)
    requires Digits(s) && Digits(t) && Nat(s) == Nat(t)
    requires s != "" ==> s[0] != '0'
    requires t != "" ==> t[0] != '0'
    ensures s == t
    decreases |s|
  {
    if s == "" || t == "" {
      if s != "" { NatPositive(s); }
      if t != "" { NatPositive(t); }
    } else {
      SplitDigit(Nat(Front(s)), DigitValue(Last(s)), Nat(Front(t)), DigitValue(Last(t)));
      NatInjective(Front(s), Front(t));
      assert s == Front(s) + [Last(s)] && t == Front(t) + [Last(t)];
      assert DigitValue(Last(s)) == DigitValue(Last(t));
    }
  }

  lemma SplitDigit(a: int, d: int, b: int, e: int)
    requires a * 10 + d == b * 10 + e && 0 <= d < 10 && 0 <= e < 10
    ensures a == b && d == e
  {
  }

  /** strconv.AppendInt and the digits of big.Int.String. */
  function Decimal(n: nat): (s: string)
    ensures s != "" && Digits(s) && Nat(s) == n && (|s| > 1 ==> s[0] != '0') && (n > 0 ==> s[0] != '0')
    decreases n
  {
    if n < 10 then
      assert Front([DigitChar(n)]) == "";
      [DigitChar(n)]
    else
      NatSnoc(Decimal(n / 10), DigitChar(n % 10));
      Decimal(n / 10) + [DigitChar(n % 10)]
  }

  /** Every digit string without a leading zero is the decimal text of its value. */
  lemma DecimalOfNat(s: string)
    requires Digits(s) && s != "" && (s[0] != '0' || s == "0")
    ensures Decimal(Nat(s)) == s
  {
    if s == "0" {
      assert Front(s) == "";
    } else {
      NatPositive(s);
      NatInjective(Decimal(Nat(s)), s);
    }
  }

  /** big.Int.String. */
  function IntText(i: int): (s: string)
    ensures s != ""
  {
    if i < 0 then "-" + Decimal(-i) else Decimal(i)
  }

  lemma IntTextInjective(i: int, j: int)
    requires IntText(i) == IntText(j)
    ensures i == j
  {
    if i < 0 { assert IntText(i)[0] == '-' && IntText(i)[1..] == Decimal(-i); }
    if j < 0 { assert IntText(j)[0] == '-' && IntText(j)[1..] == Decimal(-j); }
  }

  /** The number a numeral in canonical form denotes. */
  function Parse(s: string): Option<nat> {
    if s != "" && Digits(s) && (s[0] != '0' || s == "0") then Some(Nat(s)) else None
  }

  lemma ParseDecimal(n: nat)
    ensures Parse(Decimal(n)) == Some(n)
  {
    if Decimal(n)[0] == '0' { assert Decimal(n) == "0"; }
  }
}

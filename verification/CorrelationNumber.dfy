/**
 The decimal normal form of JSON numbers. Byte strings are modelled as strings with one
 character per byte. Numbers follow section 6 of RFC 8259; their value is an exact real.
 */
module CorrelationNumber {
  import opened Basics
  import opened Decimals

  // ---------- Number texts ----------

  datatype Sign = NoSign | Plus | Minus

  datatype Exponent = Exponent(letter: char, sign: Sign, digits: string)

  /** The parts of a JSON number, as section 6 of RFC 8259 spells it. */
  datatype Number = Number(negative: bool, whole: string, fraction: Option<string>, exponent: Option<Exponent>)

  predicate WellFormed(n: Number) {
    && Digits(n.whole) && n.whole != "" && (n.whole[0] == '0' ==> n.whole == "0")
    && (n.fraction.Some? ==> Digits(n.fraction.value) && n.fraction.value != "")
    && (n.exponent.Some? ==>
          && (n.exponent.value.letter == 'e' || n.exponent.value.letter == 'E')
          && Digits(n.exponent.value.digits) && n.exponent.value.digits != "")
  }

  /** Any digits may follow the point and the exponent letter, with either sign or none. */
  lemma WellFormedWith(n: Number, digits: string, sign: Sign)
    requires WellFormed(n) && digits != "" && forall i :: 0 <= i < |digits| ==> '0' <= digits[i] <= '9'
    ensures WellFormed(n.(fraction := Some(digits))) && WellFormed(n.(fraction := None))
    ensures WellFormed(n.(exponent := Some(Exponent('e', sign, digits)))) && WellFormed(n.(exponent := Some(Exponent('E', sign, digits))))
    ensures WellFormed(n.(exponent := None)) && WellFormed(n.(whole := "0")) && (digits[0] != '0' ==> WellFormed(n.(whole := digits)))
  {
  }

  function SignText(s: Sign): string {
    match s
    case NoSign => ""
    case Plus => "+"
    case Minus => "-"
  }

  function Mantissa(n: Number): string {
    n.whole + (if n.fraction.Some? then "." + n.fraction.value else "")
  }

  function ExponentText(e: Exponent): string { SignText(e.sign) + e.digits }

  function Unsigned(n: Number): string {
    Mantissa(n) + (if n.exponent.Some? then [n.exponent.value.letter] + ExponentText(n.exponent.value) else "")
  }

  /** The text of a number: every JSON number text is the text of exactly such parts. */
  function Text(n: Number): string {
    (if n.negative then "-" else "") + Unsigned(n)
  }

  // ---------- The value of a number ----------

  function AllDigits(n: Number): string {
    n.whole + (if n.fraction.Some? then n.fraction.value else "")
  }

  function FractionLength(n: Number): nat {
    if n.fraction.Some? then |n.fraction.value| else 0
  }

  function ExponentValue(n: Number): int
    requires WellFormed(n)
  {
    match n.exponent
    case None => 0
    case Some(e) => if e.sign == Minus then 0 - Nat(e.digits) else Nat(e.digits)
  }

  function Coefficient(n: Number): int
    requires WellFormed(n)
  {
    if n.negative then 0 - Nat(AllDigits(n)) else Nat(AllDigits(n))
  }

  /** The integer `c` times ten to the power `e`, for any integer `e`. */
  ghost function Scaled(c: int, e: int): real
    decreases if e >= 0 then e else -e
  {
    if e == 0 then c as real else if e > 0 then 10.0 * Scaled(c, e - 1) else Scaled(c, e + 1) / 10.0
  }

  /** The exact number a text denotes. */
  ghost function Value(n: Number): real
    requires WellFormed(n)
  {
    Scaled(Coefficient(n), ExponentValue(n) - FractionLength(n))
  }

  lemma ScaledStep(c: int, e: int)
    ensures Scaled(c, e + 1) == 10.0 * Scaled(c, e)
  {
  }

  lemma {:induction false} ScaledTen(c: int, e: int)
    ensures Scaled(10 * c, e) == 10.0 * Scaled(c, e)
    decreases if e >= 0 then e else -e
  {
    if e > 0 { ScaledTen(c, e - 1); }
    if e < 0 { ScaledTen(c, e + 1); }
  }

  /** Zeros appended to the coefficient raise the exponent. */
  lemma {:induction false} ScaledShift(c: int, f: int, k: nat)
    ensures Scaled(Shift(c, k), f) == Scaled(c, f + k)
    decreases k
  {
    if k > 0 {
      ScaledShift(c, f, k - 1);
      ScaledTen(Shift(c, k - 1), f);
      ScaledStep(c, f + k - 1);
    }
  }

  lemma {:induction false} ScaledInjective(c: int, d: int, f: int)
    ensures Scaled(c, f) == Scaled(d, f) <==> c == d
    decreases if f >= 0 then f else -f
  {
    if f > 0 { ScaledInjective(c, d, f - 1); }
    if f < 0 { ScaledInjective(c, d, f + 1); }
  }

  /** Scaled integers that end in a nonzero digit denote the same number only if identical. */
  lemma ScaledUnique(c: int, e: int, d: int, f: int)
    requires c % 10 != 0 && d % 10 != 0 && e >= f
    ensures Scaled(c, e) == Scaled(d, f) ==> c == d && e == f
  {
    if Scaled(c, e) == Scaled(d, f) {
      ScaledShift(c, f, e - f);
      ScaledInjective(Shift(c, e - f), d, f);
      ShiftEndsInZero(c, e - f);
    }
  }

  lemma ShiftEndsInZero(c: int, k: nat)
    ensures k > 0 ==> Shift(c, k) % 10 == 0
    ensures k == 0 ==> Shift(c, k) == c
  {
  }

  // ---------- normalizeCorrelationNumber ----------

  function IndexOf(s: string, cs: set<char>): (i: int)
    ensures -1 <= i < |s|
    ensures i >= 0 ==> s[i] in cs && forall k :: 0 <= k < i ==> s[k] !in cs
    ensures i < 0 ==> forall k :: 0 <= k < |s| ==> s[k] !in cs
  {
    if s == "" then -1
    else if s[0] in cs then 0
    else var r := IndexOf(s[1..], cs); if r < 0 then -1 else r + 1
  }

  /** `r` is `s` without its leading zeros. */
  predicate TrimsLeft(s: string, r: string) {
    |r| <= |s| && s == Zeros(|s| - |r|) + r && (r != "" ==> r[0] != '0')
  }

  /** `r` is `s` without its trailing zeros. */
  predicate TrimsRight(s: string, r: string) {
    |r| <= |s| && s == r + Zeros(|s| - |r|) && (r != "" ==> Last(r) != '0')
  }

  /** The first place at or after i that holds no zero. */
  function FirstNonZero(s: string, i: nat): (k: nat)
    requires i <= |s|
    ensures i <= k <= |s|
    decreases |s| - i
  {
    if i == |s| || s[i] != '0' then i else FirstNonZero(s, i + 1)
  }

  /** The place after the last one below i that holds no zero. */
  function AfterNonZero(s: string, i: nat): (k: nat)
    requires i <= |s|
    ensures k <= i
  {
    if i == 0 || s[i - 1] != '0' then i else AfterNonZero(s, i - 1)
  }

  function TrimLeft(s: string): string { s[FirstNonZero(s, 0)..] }

  function TrimRight(s: string): string { s[..AfterNonZero(s, |s|)] }

  lemma {:induction false} FirstNonZeroAt(s: string, i: nat)
    requires i <= |s|
    ensures var k := FirstNonZero(s, i); (k < |s| ==> s[k] != '0') && forall j :: i <= j < k ==> s[j] == '0'
    decreases |s| - i
  {
    if i < |s| && s[i] == '0' { FirstNonZeroAt(s, i + 1); }
  }

  lemma {:induction false} AfterNonZeroAt(s: string, i: nat)
    requires i <= |s|
    ensures var k := AfterNonZero(s, i); (k > 0 ==> s[k - 1] != '0') && forall j :: k <= j < i ==> s[j] == '0'
  {
    if i > 0 && s[i - 1] == '0' { AfterNonZeroAt(s, i - 1); }
  }

  lemma TrimLeftTrims(s: string)
    ensures TrimsLeft(s, TrimLeft(s))
  {
    var k := FirstNonZero(s, 0);
    FirstNonZeroAt(s, 0);
    assert s[..k] == Zeros(k);
    assert s == s[..k] + s[k..];
  }

  lemma TrimRightTrims(s: string)
    ensures TrimsRight(s, TrimRight(s))
  {
    var k := AfterNonZero(s, |s|);
    AfterNonZeroAt(s, |s|);
    assert s[k..] == Zeros(|s| - k);
    assert s == s[..k] + s[k..];
  }

  /** big.Int.SetString in base ten, on the texts the JSON grammar lets through. */
  function ParseInt(s: string): int {
    if s != "" && s[0] == '-' && Digits(s[1..]) then 0 - Nat(s[1..])
    else if s != "" && s[0] == '+' && Digits(s[1..]) then Nat(s[1..])
    else if Digits(s) then Nat(s)
    else 0
  }

  datatype Pair<A, B> = Pair(fst: A, snd: B)

  /** The text before the exponent letter and the exponent text, "0" when there is none. */
  function SplitExponent(unsigned: string): Pair<string, string> {
    var i := IndexOf(unsigned, {'e', 'E'});
    if i >= 0 then Pair(unsigned[..i], unsigned[i + 1..]) else Pair(unsigned, "0")
  }

  /** The digits without the decimal point, and how many followed it. */
  function SplitFraction(mantissa: string): Pair<string, nat> {
    var i := IndexOf(mantissa, {'.'});
    if i >= 0 then Pair(mantissa[..i] + mantissa[i + 1..], |mantissa| - i - 1) else Pair(mantissa, 0)
  }

  /** The digits without zeros at either end and how many were dropped behind; none for all zeros. */
  function Stripped(digits: string): Option<Pair<string, nat>> {
    var coefficient := TrimLeft(digits);
    if coefficient == "" then None
    else
      var trimmed := TrimRight(coefficient);
      var dropped: nat := |coefficient| - |trimmed|;
      Some(Pair(trimmed, dropped))
  }

  /** A nonzero number in normal form: digits without a zero at either end, and an exponent. */
  datatype Reduced = Reduced(negative: bool, digits: string, exponent: int)

  function ReduceParts(negative: bool, digits: string, fraction: nat, exponent: int): Option<Reduced> {
    match Stripped(digits)
    case None => None
    case Some(p) => Some(Reduced(negative, p.fst, exponent + (p.snd - fraction)))
  }

  function ReducedText(r: Reduced): string {
    (if r.negative then "-" else "") + r.digits + "e" + IntText(r.exponent)
  }

  /** Trims the digits and writes what is left with the adjusted exponent. */
  function Compose(negative: bool, digits: string, fraction: nat, exponent: int): string {
    TextOf(ReduceParts(negative, digits, fraction, exponent))
  }

  function TextOf(r: Option<Reduced>): string { if r.Some? then ReducedText(r.value) else "0" }

  function Normalize(number: string): string {
    var negative := number != "" && number[0] == '-';
    var parts := SplitExponent(if negative then number[1..] else number);
    var digits := SplitFraction(parts.fst);
    Compose(negative, digits.fst, digits.snd, ParseInt(parts.snd))
  }

  /** The first separator splits where the parts were joined. */
  lemma IndexAt(s: string, c: char, rest: string, cs: set<char>)
    requires c in cs && forall k :: 0 <= k < |s| ==> s[k] !in cs
    ensures IndexOf(s + [c] + rest, cs) == |s|
  {
    var t := s + [c] + rest;
    assert t[|s|] == c;
    assert forall k :: 0 <= k < |s| ==> t[k] == s[k];
  }

  lemma IndexNone(s: string, cs: set<char>)
    requires forall k :: 0 <= k < |s| ==> s[k] !in cs
    ensures IndexOf(s, cs) == -1
  {
  }

  /** What the scan of a well-formed text recovers: exactly its parts. */
  lemma MantissaSplits(n: Number)
    requires WellFormed(n)
    ensures SplitFraction(Mantissa(n)) == Pair(AllDigits(n), FractionLength(n))
  {
    var m := Mantissa(n);
    if n.fraction.Some? {
      assert m == n.whole + ['.'] + n.fraction.value;
      IndexAt(n.whole, '.', n.fraction.value, {'.'});
      assert m[..|n.whole|] == n.whole && m[|n.whole| + 1..] == n.fraction.value;
    } else {
      assert m == n.whole;
      IndexNone(m, {'.'});
    }
  }

  lemma MantissaPlain(n: Number)
    requires WellFormed(n)
    ensures forall k :: 0 <= k < |Mantissa(n)| ==> Mantissa(n)[k] !in {'e', 'E'}
    ensures Unsigned(n) != "" && Unsigned(n)[0] != '-'
  {
    assert Unsigned(n)[0] == n.whole[0];
  }

  lemma UnsignedSplits(n: Number)
    requires WellFormed(n)
    ensures var parts := SplitExponent(Unsigned(n));
            parts.fst == Mantissa(n) && ParseInt(parts.snd) == ExponentValue(n)
  {
    var u, m := Unsigned(n), Mantissa(n);
    MantissaPlain(n);
    if n.exponent.Some? {
      var e := n.exponent.value;
      assert u == m + [e.letter] + ExponentText(e);
      IndexAt(m, e.letter, ExponentText(e), {'e', 'E'});
      assert u[..|m|] == m && u[|m| + 1..] == ExponentText(e);
      ExponentParses(e);
    } else {
      assert u == m;
      IndexNone(u, {'e', 'E'});
      assert ParseInt("0") == 0 by { assert Front("0") == ""; }
    }
  }

  lemma ExponentParses(e: Exponent)
    requires Digits(e.digits) && e.digits != ""
    ensures ParseInt(ExponentText(e)) == if e.sign == Minus then 0 - Nat(e.digits) else Nat(e.digits)
  {
    match e.sign {
      case NoSign => assert "" + e.digits == e.digits;
      case Plus => AfterSign("+", e.digits);
      case Minus => AfterSign("-", e.digits);
    }
  }

  lemma AfterSign(sign: string, digits: string)
    requires |sign| == 1
    ensures (sign + digits)[0] == sign[0] && (sign + digits)[1..] == digits
  {
  }

  /** The normal form written from the parts of the number instead of its text. */
  function NormalText(n: Number): string
    requires WellFormed(n)
  {
    Compose(n.negative, AllDigits(n), FractionLength(n), ExponentValue(n))
  }

  lemma NormalizeText(n: Number)
    requires WellFormed(n)
    ensures Normalize(Text(n)) == NormalText(n)
  {
    UnsignedSplits(n);
    MantissaSplits(n);
    MantissaPlain(n);
    var t := Text(n);
    if n.negative { assert t[0] == '-' && t[1..] == Unsigned(n); } else { assert t == Unsigned(n); }
  }

  // ---------- Uniqueness of the normal form ----------

  predicate IsReduced(r: Reduced) {
    Digits(r.digits) && r.digits != "" && r.digits[0] != '0' && Last(r.digits) != '0'
  }

  function SignedNat(r: Reduced): int
    requires IsReduced(r)
  {
    if r.negative then 0 - Nat(r.digits) else Nat(r.digits)
  }

  ghost function ReducedValue(r: Reduced): real
    requires IsReduced(r)
  {
    Scaled(SignedNat(r), r.exponent)
  }

  /** A reduced form denotes a nonzero number and determines it up to equality. */
  lemma ReducedUnique(r: Reduced, q: Reduced)
    requires IsReduced(r) && IsReduced(q) && ReducedValue(r) == ReducedValue(q)
    ensures r == q
  {
    NatPositive(r.digits);
    NatPositive(q.digits);
    assert SignedNat(r) % 10 != 0 by { LastDigit(r); }
    assert SignedNat(q) % 10 != 0 by { LastDigit(q); }
    if r.exponent >= q.exponent {
      ScaledUnique(SignedNat(r), r.exponent, SignedNat(q), q.exponent);
    } else {
      ScaledUnique(SignedNat(q), q.exponent, SignedNat(r), r.exponent);
    }
    NatInjective(r.digits, q.digits);
  }

  lemma NotMultiple(a: int, d: int)
    requires 1 <= d <= 9
    ensures (a * 10 + d) % 10 != 0 && (0 - (a * 10 + d)) % 10 != 0
  {
  }

  lemma LastDigit(r: Reduced)
    requires IsReduced(r)
    ensures SignedNat(r) % 10 != 0
  {
    NotMultiple(Nat(Front(r.digits)), DigitValue(Last(r.digits)));
  }

  lemma ReducedNonZero(r: Reduced)
    requires IsReduced(r)
    ensures ReducedValue(r) != 0.0
  {
    NatPositive(r.digits);
    ScaledZero(r.exponent);
    ScaledInjective(SignedNat(r), 0, r.exponent);
  }

  /** The text of a reduced form determines it. */
  lemma ReducedTextInjective(r: Reduced, q: Reduced)
    requires IsReduced(r) && IsReduced(q) && ReducedText(r) == ReducedText(q)
    ensures r == q
  {
    var t := ReducedText(r);
    ReducedTextSplits(r);
    ReducedTextSplits(q);
    IntTextInjective(r.exponent, q.exponent);
  }

  lemma ReducedTextSplits(r: Reduced)
    requires IsReduced(r)
    ensures var t := ReducedText(r); var k := if r.negative then 1 else 0;
            && t != "" && (t[0] == '-' <==> r.negative)
            && IndexOf(t, {'e'}) == k + |r.digits|
            && t[k..k + |r.digits|] == r.digits && t[k + |r.digits| + 1..] == IntText(r.exponent)
  {
    WrittenSplits(if r.negative then "-" else "", r.digits, IntText(r.exponent));
    IndexAt((if r.negative then "-" else "") + r.digits, 'e', IntText(r.exponent), {'e'});
  }

  lemma WrittenSplits(sign: string, digits: string, exponent: string)
    requires digits != ""
    ensures var t := sign + digits + "e" + exponent;
            && t == (sign + digits) + ['e'] + exponent && t[0] == (if sign == "" then digits[0] else sign[0])
            && t[|sign|..|sign| + |digits|] == digits && t[|sign| + |digits| + 1..] == exponent
  {
  }

  /** The reduced form of a number whose digits are not all zero. */
  function Reduce(n: Number): Option<Reduced>
    requires WellFormed(n)
  {
    ReduceParts(n.negative, AllDigits(n), FractionLength(n), ExponentValue(n))
  }

  lemma {:induction false} ShiftNegates(c: int, k: nat)
    ensures Shift(0 - c, k) == 0 - Shift(c, k)
  {
    if k > 0 { ShiftNegates(c, k - 1); }
  }

  /** `r` is `n` with `k` zeros taken off the end of its digits and leading zeros dropped. */
  predicate Strips(r: Reduced, n: Number, k: nat) {
    && WellFormed(n) && IsReduced(r) && r.negative == n.negative
    && Shift(Nat(r.digits), k) == Nat(AllDigits(n))
    && r.exponent == ExponentValue(n) - FractionLength(n) + k
  }

  predicate StripsTo(digits: string, p: Pair<string, nat>)
    requires Digits(digits)
  {
    && Digits(p.fst) && p.fst != "" && p.fst[0] != '0' && Last(p.fst) != '0'
    && Shift(Nat(p.fst), p.snd) == Nat(digits)
  }

  lemma StrippedIs(digits: string, coefficient: string, trimmed: string)
    requires coefficient == TrimLeft(digits) && trimmed == TrimRight(coefficient)
    ensures Stripped(digits).None? <==> coefficient == ""
    ensures Stripped(digits).Some? ==> |trimmed| <= |coefficient| && Stripped(digits).value == Pair(trimmed, |coefficient| - |trimmed|)
  {
  }

  lemma StrippedNat(digits: string)
    requires Digits(digits)
    ensures Stripped(digits).None? ==> Nat(digits) == 0
    ensures Stripped(digits).Some? ==> StripsTo(digits, Stripped(digits).value)
  {
    var coefficient := TrimLeft(digits);
    var trimmed := TrimRight(coefficient);
    StrippedIs(digits, coefficient, trimmed);
    TrimLeftTrims(digits);
    TrimRightTrims(coefficient);
    NatOfTrimmed(digits, coefficient, trimmed);
  }

  lemma NatOfTrimmed(digits: string, coefficient: string, trimmed: string)
    requires Digits(digits) && TrimsLeft(digits, coefficient) && TrimsRight(coefficient, trimmed)
    ensures coefficient == "" ==> Nat(digits) == 0
    ensures coefficient != "" ==> StripsTo(digits, Pair(trimmed, |coefficient| - |trimmed|))
  {
    if coefficient == "" { TrimLeftNat(digits, ""); } else { StripsBoth(digits, coefficient, trimmed); }
  }

  lemma StripsBoth(digits: string, coefficient: string, trimmed: string)
    requires Digits(digits) && TrimsLeft(digits, coefficient) && coefficient != "" && TrimsRight(coefficient, trimmed)
    ensures StripsTo(digits, Pair(trimmed, |coefficient| - |trimmed|))
  {
    TrimLeftNat(digits, coefficient);
    TrimRightNat(coefficient, trimmed);
  }

  lemma ReduceStrips(n: Number) returns (k: nat)
    requires WellFormed(n) && Reduce(n).Some?
    ensures Strips(Reduce(n).value, n, k)
  {
    StrippedNat(AllDigits(n));
    k := Stripped(AllDigits(n)).value.snd;
  }

  lemma StripsValue(r: Reduced, n: Number, k: nat)
    requires Strips(r, n, k)
    ensures ReducedValue(r) == Value(n)
  {
    ShiftSigned(n.negative, Nat(r.digits), k, Nat(AllDigits(n)));
    ScaledShift(SignedNat(r), ExponentValue(n) - FractionLength(n), k);
  }

  lemma ShiftSigned(negative: bool, c: int, k: nat, d: int)
    requires Shift(c, k) == d
    ensures Shift(if negative then 0 - c else c, k) == if negative then 0 - d else d
  {
    ShiftNegates(c, k);
  }

  /** Stripping zeros at both ends of the digits keeps the value. */
  lemma ReduceValue(n: Number)
    requires WellFormed(n)
    ensures match Reduce(n)
            case None => Value(n) == 0.0
            case Some(r) => IsReduced(r) && ReducedValue(r) == Value(n)
  {
    if Reduce(n).Some? {
      var k := ReduceStrips(n);
      StripsValue(Reduce(n).value, n, k);
    } else {
      StrippedNat(AllDigits(n));
      ScaledZero(ExponentValue(n) - FractionLength(n));
    }
  }

  lemma {:induction false} ScaledZero(e: int)
    ensures Scaled(0, e) == 0.0
    decreases if e >= 0 then e else -e
  {
    if e > 0 { ScaledZero(e - 1); }
    if e < 0 { ScaledZero(e + 1); }
  }

  lemma TrimLeftNat(s: string, r: string)
    requires Digits(s) && TrimsLeft(s, r)
    ensures Digits(r) && Nat(r) == Nat(s)
  {
    assert r == s[|s| - |r|..];
    NatPrependZeros(|s| - |r|, r);
  }

  lemma TrimRightNat(s: string, r: string)
    requires Digits(s) && s != "" && s[0] != '0' && TrimsRight(s, r)
    ensures r != "" && Digits(r) && r[0] == s[0] && Nat(s) == Shift(Nat(r), |s| - |r|)
  {
    var k := |s| - |r|;
    assert r == s[..|r|];
    assert s == r + Zeros(k) && s[0] == (r + Zeros(k))[0];
    NatAppendZeros(r, k);
  }

  /** The normal form: "0" for every zero, otherwise digits with no zero at either end and an
      exponent, denoting the same number. */
  lemma NormalFormShape(n: Number)
    requires WellFormed(n)
    ensures Value(n) == 0.0 ==> Normalize(Text(n)) == "0"
    ensures Value(n) != 0.0 ==>
              && Reduce(n).Some? && IsReduced(Reduce(n).value)
              && Normalize(Text(n)) == ReducedText(Reduce(n).value) && ReducedValue(Reduce(n).value) == Value(n)
  {
    NormalizeText(n);
    ReduceValue(n);
    if Reduce(n).Some? { ReducedNonZero(Reduce(n).value); }
  }

  lemma ReducedNotZero(r: Reduced)
    requires IsReduced(r)
    ensures ReducedText(r) != "0"
  {
    ReducedTextSplits(r);
    assert IndexOf("0", {'e'}) == -1 by { IndexNone("0", {'e'}); }
  }

  /** Two JSON number texts have the same normal form exactly when they denote the same number. */
  lemma NormalFormIffSameValue(m: Number, n: Number)
    requires WellFormed(m) && WellFormed(n)
    ensures Normalize(Text(m)) == Normalize(Text(n)) <==> Value(m) == Value(n)
  {
    NormalFormShape(m);
    NormalFormShape(n);
    if Value(m) != 0.0 { ReducedNotZero(Reduce(m).value); }
    if Value(n) != 0.0 { ReducedNotZero(Reduce(n).value); }
    if Value(m) != 0.0 && Value(n) != 0.0 {
      if Normalize(Text(m)) == Normalize(Text(n)) { ReducedTextInjective(Reduce(m).value, Reduce(n).value); }
      if Value(m) == Value(n) { ReducedUnique(Reduce(m).value, Reduce(n).value); }
    }
  }

  /** A reduced form is itself the parts of a JSON number. */
  function AsNumber(r: Reduced): Number
  {
    Number(r.negative, r.digits, None,
           Some(Exponent('e', if r.exponent < 0 then Minus else NoSign,
                         Decimal(if r.exponent < 0 then -r.exponent else r.exponent))))
  }

  function Canonical(n: Number): Number
    requires WellFormed(n)
  {
    if Reduce(n).Some? then AsNumber(Reduce(n).value) else Number(false, "0", None, None)
  }

  /** The normal form of a JSON number is a JSON number of the same value, and its own normal form. */
  lemma CanonicalNumber(n: Number)
    requires WellFormed(n)
    ensures WellFormed(Canonical(n)) && Text(Canonical(n)) == Normalize(Text(n)) && Value(Canonical(n)) == Value(n)
    ensures Normalize(Normalize(Text(n))) == Normalize(Text(n))
  {
    ReduceValue(n);
    NormalizeText(n);
    if Reduce(n).Some? {
      var r := Reduce(n).value;
      AsNumberText(r);
      AsNumberValue(r);
    } else {
      ZeroText();
    }
    NormalFormIffSameValue(Canonical(n), n);
  }

  lemma AsNumberText(r: Reduced)
    requires IsReduced(r)
    ensures WellFormed(AsNumber(r)) && Text(AsNumber(r)) == ReducedText(r)
  {
    var n := AsNumber(r);
    AsNumberExponent(r);
    MantissaWhole(n);
    AssociateThree(if r.negative then "-" else "", r.digits, "e", IntText(r.exponent));
  }

  lemma MantissaWhole(n: Number)
    requires n.fraction.None?
    ensures Mantissa(n) == n.whole
  {
  }

  lemma AsNumberExponent(r: Reduced)
    ensures var e := AsNumber(r).exponent; e.Some? && e.value.letter == 'e' && ExponentText(e.value) == IntText(r.exponent)
  {
  }

  lemma AsNumberValue(r: Reduced)
    requires IsReduced(r) && WellFormed(AsNumber(r))
    ensures Value(AsNumber(r)) == ReducedValue(r)
  {
    assert AllDigits(AsNumber(r)) == r.digits;
  }

  lemma ZeroText()
    ensures var z := Number(false, "0", None, None); WellFormed(z) && Text(z) == "0" && Value(z) == 0.0
  {
    var z := Number(false, "0", None, None);
    assert Mantissa(z) == "0" && Unsigned(z) == "0" && AllDigits(z) == "0";
    assert Nat("0") == 0 by { assert Front("0") == ""; }
    ScaledZero(0);
  }
}

/**
  Decimal text of identifiers: JavaScript's `Number.prototype.toString()` on
  non-negative integers (the document store keys appointments by the decimal
  text of the relational id), and the integer syntax the request validators
  accept (`[-+]?[0-9]+`, leading zeros allowed).
 */
module DecimalText {
  import opened Wrappers

  predicate IsDigit(c: char) { '0' <= c <= '9' }

  function DigitChar(d: nat): (c: char)
    requires d < 10
    ensures IsDigit(c)
  {
    (48 + d) as char
  }

  function DigitValue(c: char): (d: nat)
    requires IsDigit(c)
    ensures d < 10 && DigitChar(d) == c
  {
    c as int - 48
  }

  predicate AllDigits(s: string) { forall i :: 0 <= i < |s| ==> IsDigit(s[i]) }

  /** The shortest decimal spelling of `n`; below 2^53 this is what `n.toString()` writes. */
  function Decimal(n: nat): (r: string)
    ensures |r| > 0
    decreases n
  {
    if n < 10 then [DigitChar(n)] else Decimal(n / 10) + [DigitChar(n % 10)]
  }

  /** The value of a digit string, most significant digit first. */
  function DigitsValue(s: string): nat
    requires AllDigits(s)
  {
    if s == [] then 0 else DigitsValue(s[..|s| - 1]) * 10 + DigitValue(s[|s| - 1])
  }

  /** A non-empty digit string without a leading zero (except "0" itself). */
  predicate Canonical(s: string)
  {
    |s| > 0 && AllDigits(s) && (|s| > 1 ==> s[0] != '0')
  }

  function ParseDecimal(s: string): Option<nat>
  {
    if Canonical(s) then Some(DigitsValue(s)) else None
  }

  lemma {:induction false} DecimalIsCanonical(n: nat)
    ensures Canonical(Decimal(n)) && DigitsValue(Decimal(n)) == n
    ensures Decimal(n)[0] == '0' ==> n == 0
    decreases n
  {
    if n >= 10 {
      var p := Decimal(n / 10);
      DecimalIsCanonical(n / 10);
      var s := Decimal(n);
      assert s == p + [DigitChar(n % 10)];
      assert s[..|s| - 1] == p;
      assert s[0] == p[0];
    }
  }

  /** Reading back the decimal text of `n` gives `n`. */
  lemma ParseDecimalOfDecimal(n: nat)
    ensures ParseDecimal(Decimal(n)) == Some(n)
  {
    DecimalIsCanonical(n);
  }

  lemma {:induction false} CanonicalPositive(s: string)
    requires AllDigits(s) && |s| > 0 && s[0] != '0'
    ensures DigitsValue(s) >= 1
    decreases |s|
  {
    if |s| > 1 {
      var p := s[..|s| - 1];
      assert p[0] == s[0];
      CanonicalPositive(p);
    }
  }

  /** Every canonical digit string is the decimal text of its value. */
  lemma {:induction false} DecimalOfParseDecimal(s: string)
    requires ParseDecimal(s).Some?
    ensures Decimal(ParseDecimal(s).value) == s
    decreases |s|
  {
    if |s| > 1 {
      var p := s[..|s| - 1];
      assert p[0] == s[0];
      CanonicalPositive(p);
      assert Canonical(p);
      DecimalOfParseDecimal(p);
      var n := DigitsValue(s);
      assert n / 10 == DigitsValue(p) && n % 10 == DigitValue(s[|s| - 1]);
      assert s == p + [s[|s| - 1]];
    }
  }

  /** Distinct ids have distinct decimal keys. */
  lemma DecimalInjective(a: nat, b: nat)
    ensures Decimal(a) == Decimal(b) ==> a == b
  {
    ParseDecimalOfDecimal(a);
    ParseDecimalOfDecimal(b);
  }


  function Pow10(k: nat): nat
  {
    if k == 0 then 1 else 10 * Pow10(k - 1)
  }

  /** Integers of this magnitude (10^21) and above print in exponent form. */
  const ExponentFrom: int := 1_000_000_000_000_000_000_000

  lemma Pow10ExponentFrom()
    ensures Pow10(21) == ExponentFrom
  {
    assert Pow10(7) == 10_000_000;
    assert Pow10(14) == 100_000_000_000_000;
  }

  /** `s` without its trailing zeros. */
  function TrimZeros(s: string): (r: string)
    ensures |r| <= |s|
  {
    if |s| > 0 && s[|s| - 1] == '0' then TrimZeros(s[..|s| - 1]) else s
  }

  /** The exponent form of the digits `d`: the first digit, the remaining
      significant digits after a point, then `e+` and the exponent
      ("1e+21", "1.5e+21"). */
  function ExponentForm(d: string): string
    requires |d| > 0
  {
    var t := TrimZeros(d);
    var fraction := if |t| > 1 then "." + t[1..] else "";
    [d[0]] + fraction + "e+" + Decimal(|d| - 1)
  }

  function ExponentText(m: nat): string
  {
    ExponentForm(Decimal(m))
  }

  /** `String(m)` for a non-negative integer-valued number `m`: plain decimal
      below 10^21, exponent form from there on. From 2^53 on these are the
      exact digits, not the shortest digits that identify the double. */
  function NatText(m: nat): string
  {
    if m >= ExponentFrom then ExponentText(m) else Decimal(m)
  }

  /** `String(n)` for an integer-valued number `n`. */
  function IntText(n: int): string
  {
    if n < 0 then "-" + NatText(-n) else NatText(n)
  }

  /** The integer denoted by `s` under the syntax `[-+]?[0-9]+`, if any. */
  function IntegerValue(s: string): Option<int>
  {
    if |s| > 0 && (s[0] == '-' || s[0] == '+') then
      if |s| > 1 && AllDigits(s[1..]) then
        var v: int := DigitsValue(s[1..]);
        Some(if s[0] == '-' then -v else v)
      else None
    else if |s| > 0 && AllDigits(s) then Some(DigitsValue(s))
    else None
  }


  /** 10^k is written "1" and k zeros. */
  lemma {:induction false} DecimalPow10(k: nat)
    ensures Decimal(Pow10(k)) == ['1'] + seq(k, _ => '0')
  {
    if k > 0 {
      DecimalPow10(k - 1);
      assert Pow10(k) / 10 == Pow10(k - 1) && Pow10(k) % 10 == 0;
      assert ['1'] + seq(k, _ => '0') == ['1'] + seq(k - 1, _ => '0') + ['0'];
    }
  }

  lemma {:induction false} TrimZerosOne(k: nat)
    ensures TrimZeros(['1'] + seq(k, _ => '0')) == ['1']
  {
    if k > 0 {
      var s := ['1'] + seq(k, _ => '0');
      assert s[..|s| - 1] == ['1'] + seq(k - 1, _ => '0');
      TrimZerosOne(k - 1);
    }
  }

  lemma ExponentFormOne(k: nat)
    ensures ExponentForm(['1'] + seq(k, _ => '0')) == "1e+" + Decimal(k)
  {
    TrimZerosOne(k);
  }

  /** 10^k prints in exponent form as "1e+k". */
  lemma ExponentTextPow10(k: nat)
    ensures ExponentText(Pow10(k)) == "1e+" + Decimal(k)
  {
    DecimalPow10(k);
    ExponentFormOne(k);
  }

  /** An exponent form starts with a digit and is not a digit string. */
  lemma ExponentTextNotDigits(m: nat)
    ensures IsDigit(ExponentText(m)[0]) && !AllDigits(ExponentText(m))
  {
    DecimalIsCanonical(m);
    var d := Decimal(m);
    var t := TrimZeros(d);
    var fraction := if |t| > 1 then "." + t[1..] else "";
    var s := ExponentText(m);
    assert s == [d[0]] + fraction + "e+" + Decimal(|d| - 1);
    assert s[1 + |fraction|] == 'e';
  }

  lemma IntegerValueOfDecimal(m: nat)
    ensures IntegerValue(Decimal(m)) == Some(m) && IntegerValue("-" + Decimal(m)) == Some(-(m as int))
  {
    DecimalIsCanonical(m);
    assert ("-" + Decimal(m))[1..] == Decimal(m);
  }

  lemma IntegerValueOfExponentText(m: nat)
    ensures IntegerValue(ExponentText(m)) == None && IntegerValue("-" + ExponentText(m)) == None
  {
    ExponentTextNotDigits(m);
    assert ("-" + ExponentText(m))[1..] == ExponentText(m);
  }

  lemma {:induction false} IntegerValueOfNatText(m: nat)
    ensures m < ExponentFrom ==> IntegerValue(NatText(m)) == Some(m) && IntegerValue("-" + NatText(m)) == Some(-(m as int))
    ensures m >= ExponentFrom ==> IntegerValue(NatText(m)) == None && IntegerValue("-" + NatText(m)) == None
  {
    if m >= ExponentFrom {
      IntegerValueOfExponentText(m);
    } else {
      IntegerValueOfDecimal(m);
    }
  }

  /** Reading back `String(n)` under that syntax gives `n` below 10^21 in
      magnitude, and nothing from there on. */
  lemma {:induction false} IntegerValueOfIntText(n: int)
    ensures -ExponentFrom < n < ExponentFrom ==> IntegerValue(IntText(n)) == Some(n)
    ensures (n <= -ExponentFrom || n >= ExponentFrom) ==> IntegerValue(IntText(n)) == None
  {
    if n < 0 {
      var m: nat := -n;
      var s := "-" + NatText(m);
      assert IntText(n) == s;
      IntegerValueOfNatText(m);
      assert IntegerValue(IntText(n)) == IntegerValue(s);
    } else {
      assert IntText(n) == NatText(n);
      IntegerValueOfNatText(n);
    }
  }
}

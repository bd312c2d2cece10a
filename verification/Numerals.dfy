// Numbers and the decimal texts that stand for them.

module Numerals {
  import opened Wrappers

  predicate IsDigit(c: char) {
    '0' <= c <= '9'
  }

  predicate AllDigits(s: string) {
    forall i | 0 <= i < |s| :: IsDigit(s[i])
  }

  function DigitValue(c: char): nat
    requires IsDigit(c)
  {
    (c as int) - ('0' as int)
  }

  function Digits(n: nat): (r: string)
    ensures '/' !in r && |r| > 0 && (|r| == 1 <==> n < 10)
  {
    var d := ['0' + (n % 10) as char];
    if n < 10 then d else Digits(n / 10) + d
  }

  // The number that the digits at the end of a text stand for.
  function Number(s: string): nat {
    if s == "" || !IsDigit(s[|s| - 1]) then 0 else 10 * Number(s[..|s| - 1]) + DigitValue(s[|s| - 1])
  }

  lemma {:induction false} DigitsReadBack(n: nat)
    ensures Number(Digits(n)) == n && AllDigits(Digits(n))
    decreases n
  {
    var s := Digits(n);
    if n >= 10 {
      DigitsReadBack(n / 10);
      assert s[..|s| - 1] == Digits(n / 10);
    } else {
      assert s[..0] == "";
    }
    assert DigitValue(s[|s| - 1]) == n % 10;
  }

  lemma DigitsAreInjective(a: nat, b: nat)
    requires Digits(a) == Digits(b)
    ensures a == b
  {
    DigitsReadBack(a);
    DigitsReadBack(b);
  }

  // ---------- decimal fractions ----------

  function Pow10(k: nat): (p: nat)
    ensures p > 0
  {
    if k == 0 then 1 else 10 * Pow10(k - 1)
  }

  function Scaled(n: int, k: nat): real {
    (n as real) / (Pow10(k) as real)
  }

  // The numbers that a finite decimal text can stand for.
  ghost predicate Fraction(d: real) {
    exists n: int, k: nat :: d == Scaled(n, k)
  }

  function Padded(s: string, k: nat): (r: string)
    ensures |r| > k
    decreases k + 1 - |s|
  {
    if |s| > k then s else Padded("0" + s, k)
  }

  // The digits of a fixed-point text, with the point before the last k of them.
  function Pointed(s: string, k: nat): string
    requires k < |s|
  {
    if k == 0 then s else s[..|s| - k] + "." + s[|s| - k..]
  }

  function ScaledText(n: int, k: nat): string {
    if n < 0 then "-" + Pointed(Padded(Digits(-n), k), k) else Pointed(Padded(Digits(n), k), k)
  }

  function PointIn(s: string): (p: nat)
    ensures p <= |s|
  {
    if s == "" || s[0] == '.' then 0 else 1 + PointIn(s[1..])
  }

  function ReadUnsigned(s: string): Option<real> {
    var p := PointIn(s);
    var fraction := if p < |s| then s[p + 1..] else "";
    var digits := s[..p] + fraction;
    if digits != "" && AllDigits(digits) then Some(Scaled(Number(digits), |fraction|)) else None
  }

  function ReadDecimal(s: string): Option<real> {
    if s != "" && s[0] == '-' then
      match ReadUnsigned(s[1..]) case Some(d) => Some(0.0 - d) case None => None
    else ReadUnsigned(s)
  }

  lemma {:induction false} LeadingZeros(s: string)
    ensures Number("0" + s) == Number(s)
    decreases |s|
  {
    if s == "" {
      assert Number("0") == 10 * Number("0"[..0]) + DigitValue('0');
    } else {
      assert ("0" + s)[..|s|] == "0" + s[..|s| - 1];
      LeadingZeros(s[..|s| - 1]);
    }
  }

  lemma {:induction false} PaddingKeepsNumber(s: string, k: nat)
    requires AllDigits(s)
    ensures Number(Padded(s, k)) == Number(s) && AllDigits(Padded(s, k))
    decreases k + 1 - |s|
  {
    if |s| <= k {
      LeadingZeros(s);
      PaddingKeepsNumber("0" + s, k);
    }
  }

  lemma {:induction false} PointFound(a: string, b: string)
    requires AllDigits(a)
    ensures PointIn(a + "." + b) == |a| && PointIn(a) == |a|
    decreases |a|
  {
    if a == "" {
      assert (a + "." + b)[0] == '.';
    } else {
      assert (a + "." + b)[1..] == a[1..] + "." + b;
      PointFound(a[1..], b);
    }
  }

  lemma {:induction false} UnsignedReadsBack(s: string, k: nat)
    requires AllDigits(s) && k < |s|
    ensures ReadUnsigned(Pointed(s, k)) == Some(Scaled(Number(s), k)) && Pointed(s, k)[0] != '-'
  {
    var p := Pointed(s, k);
    if k == 0 {
      PointFound(s, "");
      assert s[..|s|] + "" == s;
    } else {
      var a, b := s[..|s| - k], s[|s| - k..];
      PointFound(a, b);
      assert p[..|a|] == a && p[|a| + 1..] == b;
      assert a + b == s;
    }
  }

  lemma NegatedQuotient(a: real, p: real)
    requires p > 0.0
    ensures (0.0 - a) / p == 0.0 - a / p
  {
    var q := a / p;
    assert q * p == a;
    assert (0.0 - q) * p == 0.0 - q * p;
    assert ((0.0 - q) * p) / p == 0.0 - q;
  }

  lemma NegatedScale(n: int, k: nat)
    ensures Scaled(0 - n, k) == 0.0 - Scaled(n, k)
  {
    hide Pow10;
    NegatedQuotient(n as real, Pow10(k) as real);
    assert (0 - n) as real == 0.0 - (n as real);
  }

  // A digit behind the point is worth a tenth of one before it.
  lemma PointMoves(n: int, k: nat)
    ensures Scaled(n, 0) == n as real && Scaled(n, k + 1) * 10.0 == Scaled(n, k)
  {
    Tenth(n as real, Pow10(k) as real);
    assert Pow10(k + 1) as real == 10.0 * (Pow10(k) as real);
    hide Pow10;
  }

  lemma Tenth(a: real, p: real)
    requires p > 0.0
    ensures a / (10.0 * p) * 10.0 == a / p
  {
    var q := a / (10.0 * p);
    assert q * (10.0 * p) == a;
    assert (q * 10.0) * p == a;
  }

  // Reading the text of a decimal fraction gives it back.
  lemma {:induction false} ScaledReadsBack(n: int, k: nat)
    ensures ReadDecimal(ScaledText(n, k)) == Some(Scaled(n, k))
  {
    hide ReadUnsigned, ReadDecimal, Scaled, Padded, Pointed, Digits;
    if n < 0 {
      var p := UnsignedTextReadsBack(0 - n, k);
      NegatedScale(0 - n, k);
      NegativeText(p);
    } else {
      var p := UnsignedTextReadsBack(n, k);
      UnsignedText(p);
    }
  }

  lemma UnsignedText(s: string)
    requires s != "" && s[0] != '-'
    ensures ReadDecimal(s) == ReadUnsigned(s)
  {
    hide ReadUnsigned;
  }

  lemma NegativeText(s: string)
    ensures ReadDecimal("-" + s) == match ReadUnsigned(s) case Some(d) => Some(0.0 - d) case None => None
  {
    hide ReadUnsigned;
    assert ("-" + s)[1..] == s;
  }

  lemma UnsignedTextReadsBack(n: nat, k: nat) returns (p: string)
    ensures p == Pointed(Padded(Digits(n), k), k) && p != "" && p[0] != '-' && ReadUnsigned(p) == Some(Scaled(n, k))
  {
    var s := Padded(Digits(n), k);
    DigitsReadBack(n);
    PaddingKeepsNumber(Digits(n), k);
    UnsignedReadsBack(s, k);
    p := Pointed(s, k);
    hide ReadUnsigned, Scaled, Padded, Digits, Number;
    assert |p| > 0 by {
      assert |s| > k;
    }
  }

  lemma ReadGivesFractions(s: string)
    ensures ReadDecimal(s).Some? ==> Fraction(ReadDecimal(s).value)
  {
    if ReadDecimal(s).Some? {
      var u := if s != "" && s[0] == '-' then s[1..] else s;
      var p := PointIn(u);
      var fraction := if p < |u| then u[p + 1..] else "";
      NegatedScale(Number(u[..p] + fraction), |fraction|);
    }
  }

  // A text of a decimal fraction.
  ghost function DecimalText(d: real): string {
    if Fraction(d) then
      var n: int, k: nat :| d == Scaled(n, k);
      ScaledText(n, k)
    else ""
  }

  lemma DecimalReadsBack(d: real)
    requires Fraction(d)
    ensures ReadDecimal(DecimalText(d)) == Some(d)
  {
    var n: int, k: nat :| d == Scaled(n, k) && DecimalText(d) == ScaledText(n, k);
    ScaledReadsBack(n, k);
  }

  // ---------- whole numbers ----------

  function IntText(n: int): string {
    if n < 0 then "-" + Digits(-n) else Digits(n)
  }

  function ReadInt(s: string): Option<int> {
    if s != "" && s[0] == '-' then
      if s[1..] != "" && AllDigits(s[1..]) then Some(0 - Number(s[1..])) else None
    else if s != "" && AllDigits(s) then Some(Number(s)) else None
  }

  lemma IntReadsBack(n: int)
    ensures ReadInt(IntText(n)) == Some(n)
  {
    DigitsReadBack(if n < 0 then -n else n);
    if n < 0 {
      assert IntText(n)[1..] == Digits(-n);
    }
  }
}

/** BinLogger::IntToString and BinLogger::StringToInt: decimal slot keys and tag values. */
module Decimal {
  import opened Base

  const MINUS: byte := 45
  const ZERO: byte := 48
  const INT32_MAX := 0x7FFF_FFFF
  const INT32_MIN := -0x8000_0000

  predicate IsDigit(b: byte) {
    ZERO <= b <= ZERO + 9
  }

  predicate AllDigits(s: Bytes) {
    forall i :: 0 <= i < |s| ==> IsDigit(s[i])
  }

  function Digits(n: nat): (s: Bytes)
    ensures s != [] && AllDigits(s)
  {
    if n < 10 then [ZERO + n] else Digits(n / 10) + [ZERO + n % 10]
  }

  function IntToString(n: int): Bytes {
    if n < 0 then [MINUS] + Digits(-n) else Digits(n)
  }

  /** Number of leading digits of s. */
  function DigitRun(s: Bytes): (k: nat)
    ensures k <= |s| && forall i :: 0 <= i < k ==> IsDigit(s[i])
    ensures k < |s| ==> !IsDigit(s[k])
  {
    if s == [] || !IsDigit(s[0]) then 0 else 1 + DigitRun(s[1..])
  }

  function DigitsValue(s: Bytes): nat
    requires AllDigits(s)
  {
    if s == [] then 0 else 10 * DigitsValue(s[..|s| - 1]) + (s[|s| - 1] - ZERO)
  }

  /** What extraction into a 32-bit int stores: out-of-range values are clamped. */
  function ClampInt32(v: int): int {
    Min(Max(v, INT32_MIN), INT32_MAX)
  }

  function StringToInt(s: Bytes): int {
    var negative := s != [] && s[0] == MINUS;
    var t := if negative then s[1..] else s;
    var run := t[..DigitRun(t)];
    var v: int := DigitsValue(run);
    ClampInt32(if negative then -v else v)
  }

  lemma {:induction false} DigitsValueOfDigits(n: nat)
    ensures DigitsValue(Digits(n)) == n
  {
    if n >= 10 {
      DigitsValueOfDigits(n / 10);
      var s := Digits(n);
      assert s[..|s| - 1] == Digits(n / 10);
    } else {
      assert Digits(n)[..0] == [];
    }
  }

  lemma {:induction false} DigitRunOfDigits(s: Bytes)
    requires AllDigits(s)
    ensures DigitRun(s) == |s|
  {
    if s != [] {
      DigitRunOfDigits(s[1..]);
    }
  }

  lemma ParseDigits(n: nat)
    ensures var d := Digits(n); d[..DigitRun(d)] == d && DigitsValue(d) == n
  {
    DigitsValueOfDigits(n);
    DigitRunOfDigits(Digits(n));
  }

  /** Reading back a written number gives it back exactly when it fits the 32-bit int of the parse. */
  lemma StringToIntOfIntToString(n: int)
    ensures StringToInt(IntToString(n)) == ClampInt32(n)
    ensures StringToInt(IntToString(n)) == n <==> -0x8000_0000 <= n <= 0x7FFF_FFFF
  {
    var m: nat := if n < 0 then -n else n;
    var d := Digits(m);
    ParseDigits(m);
    var s := IntToString(n);
    if n < 0 {
      assert s == [MINUS] + d && s[0] == MINUS && s[1..] == d;
    } else {
      assert s == d && IsDigit(s[0]);
    }
  }

  /** A digit is written by its own character, a number with its lowest digit last, a negative one behind a minus. */
  lemma Written(n: int)
    requires n >= 0
    ensures n < 10 ==> IntToString(n) == [Ascii("0123456789")[n]]
    ensures n >= 10 ==> IntToString(n) == IntToString(n / 10) + IntToString(n % 10)
    ensures n > 0 ==> IntToString(-n) == Ascii("-") + IntToString(n)
  {
  }

  /** Different indices have different slot keys, over the whole of int. */
  lemma IntToStringInjective(a: int, b: int)
    requires IntToString(a) == IntToString(b)
    ensures a == b
  {
    var s := IntToString(a);
    if a < 0 {
      DigitsValueOfDigits(-a);
      assert s[1..] == Digits(-a);
    } else {
      DigitsValueOfDigits(a);
      assert IsDigit(s[0]);
    }
    if b < 0 {
      DigitsValueOfDigits(-b);
      assert s[1..] == Digits(-b);
    } else {
      DigitsValueOfDigits(b);
      assert IsDigit(s[0]);
    }
  }

  /** A slot key starts with a digit or a minus sign, so it is no tag that starts with '#'. */
  lemma IntToStringFirst(n: int)
    ensures IntToString(n) != []
    ensures IntToString(n)[0] == MINUS || IsDigit(IntToString(n)[0])
  {
    assert IsDigit(Digits(if n < 0 then -n else n)[0]);
  }
}

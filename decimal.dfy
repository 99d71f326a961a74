/** Decimal text of a natural number, as Rust's `u8::to_string` renders a byte. */
module Decimal {

  predicate IsDigit(c: char) {
    '0' <= c <= '9'
  }

  /** A non-empty run of ASCII digits. */
  predicate IsDigits(s: string) {
    |s| >= 1 && forall i :: 0 <= i < |s| ==> IsDigit(s[i])
  }

  /** Digits without a superfluous leading zero: the form `to_string` produces. */
  predicate IsCanonical(s: string) {
    IsDigits(s) && (s[0] == '0' ==> |s| == 1)
  }

  function DigitChar(d: nat): (c: char)
    requires d < 10
    ensures IsDigit(c) && DigitValue(c) == d
  {
    (48 + d) as char
  }

  function DigitValue(c: char): nat
    requires IsDigit(c)
  {
    c as int - 48
  }

  /** The number a digit run denotes, read most significant digit first. */
  function DecimalValue(s: string): nat
    requires forall i :: 0 <= i < |s| ==> IsDigit(s[i])
  {
    if s == [] then 0 else DecimalValue(s[..|s| - 1]) * 10 + DigitValue(s[|s| - 1])
  }

  /** The decimal text of `n`: canonical digits. */
  function DecimalText(n: nat): (s: string)
    ensures IsCanonical(s)
    ensures n < 10 <==> |s| == 1
    decreases n
  {
    if n < 10 then [DigitChar(n)] else DecimalText(n / 10) + [DigitChar(n % 10)]
  }

  /** Reading back the decimal text of `n` gives `n`. */
  lemma {:induction false} ValueOfText(n: nat)
    ensures DecimalValue(DecimalText(n)) == n
    decreases n
  {
    if n >= 10 {
      var s := DecimalText(n);
      assert s[..|s| - 1] == DecimalText(n / 10);
      ValueOfText(n / 10);
    }
  }

  /** A canonical text of two or more digits denotes a number of at least 10. */
  lemma {:induction false} LongTextIsLarge(s: string)
    requires IsCanonical(s) && |s| >= 2
    ensures DecimalValue(s) >= 10
    decreases |s|
  {
    var p := s[..|s| - 1];
    assert p[0] == s[0];
    if |p| >= 2 {
      LongTextIsLarge(p);
    } else {
      assert DecimalValue(p) == DigitValue(p[0]) >= 1;
    }
  }

  /** Every canonical digit text is the decimal text of the number it denotes. */
  lemma {:induction false} TextOfValue(s: string)
    requires IsCanonical(s)
    ensures DecimalText(DecimalValue(s)) == s
    decreases |s|
  {
    var n := DecimalValue(s);
    if |s| == 1 {
      assert DecimalValue(s[..0]) == 0;
    } else {
      var p := s[..|s| - 1];
      assert p[0] == s[0];
      assert IsCanonical(p);
      LongTextIsLarge(s);
      TextOfValue(p);
      assert n / 10 == DecimalValue(p) && n % 10 == DigitValue(s[|s| - 1]);
      assert DigitChar(n % 10) == s[|s| - 1];
      assert s == p + [s[|s| - 1]];
    }
  }

  /** Distinct numbers have distinct decimal texts. */
  lemma TextInjective(m: nat, n: nat)
    ensures DecimalText(m) == DecimalText(n) ==> m == n
  {
    ValueOfText(m);
    ValueOfText(n);
  }
}

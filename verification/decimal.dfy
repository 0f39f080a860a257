/** Decimal digit strings: the `parseInt` / `toString` pair the tokenizer
    relies on, restricted to non-negative integers written in base 10. */
module Decimal {

  predicate IsDigit(c: char) {
    '0' <= c <= '9'
  }

  predicate AllDigits(s: string) {
    forall i | 0 <= i < |s| :: IsDigit(s[i])
  }

  /** A digit string as `toString` writes it: non-empty, and no leading
      zero unless the number is zero itself. */
  predicate Canonical(s: string) {
    |s| >= 1 && AllDigits(s) && (s[0] == '0' ==> |s| == 1)
  }

  function DigitValue(c: char): (d: nat)
    requires IsDigit(c)
    ensures d < 10
  {
    c as int - '0' as int
  }

  function DigitChar(d: nat): (c: char)
    requires d < 10
    ensures IsDigit(c) && DigitValue(c) == d
  {
    ('0' as int + d) as char
  }

  /** The value of a digit string, most significant digit first. */
  function DecimalValue(s: string): nat
    requires AllDigits(s)
  {
    if |s| == 0 then 0 else 10 * DecimalValue(s[..|s| - 1]) + DigitValue(s[|s| - 1])
  }

  /** The decimal rendering of `n`, as `n.toString()` produces it. */
  function NatToString(n: nat): (s: string)
    ensures Canonical(s)
    ensures n < 10 <==> |s| == 1
  {
    if n < 10 then [DigitChar(n)] else NatToString(n / 10) + [DigitChar(n % 10)]
  }

  /** Drops leading zeros but keeps the last digit, so the result is the
      canonical spelling of the same number. */
  function StripZeros(s: string): (t: string)
    requires |s| >= 1 && AllDigits(s)
    ensures Canonical(t)
    ensures |t| <= |s| && t == s[|s| - |t|..]
    ensures forall i | 0 <= i < |s| - |t| :: s[i] == '0'
    ensures s[0] != '0' ==> t == s
  {
    if |s| > 1 && s[0] == '0' then StripZeros(s[1..]) else s
  }

  /** Reading back a rendered number gives the number. */
  lemma {:induction false} ValueOfString(n: nat)
    ensures DecimalValue(NatToString(n)) == n
  {
    if n >= 10 {
      var s := NatToString(n);
      assert s[..|s| - 1] == NatToString(n / 10);
      ValueOfString(n / 10);
    }
  }

  /** A canonical digit string is the rendering of its own value. */
  lemma {:induction false} StringOfValue(s: string)
    requires Canonical(s)
    ensures NatToString(DecimalValue(s)) == s
  {
    if |s| > 1 {
      var p := s[..|s| - 1];
      assert Canonical(p);
      PositiveValue(p);
      StringOfValue(p);
      var v := DecimalValue(s);
      assert v / 10 == DecimalValue(p) && v % 10 == DigitValue(s[|s| - 1]);
      assert DigitChar(v % 10) == s[|s| - 1];
      assert s == p + [s[|s| - 1]];
    } else {
      assert DigitChar(DigitValue(s[0])) == s[0];
    }
  }

  lemma {:induction false} PositiveValue(s: string)
    requires |s| >= 1 && AllDigits(s) && s[0] != '0'
    ensures DecimalValue(s) >= 1
  {
    if |s| > 1 {
      PositiveValue(s[..|s| - 1]);
    }
  }

  /** A leading zero does not change the value. */
  lemma {:induction false} LeadingZero(s: string)
    requires AllDigits(s)
    ensures AllDigits(['0'] + s) && DecimalValue(['0'] + s) == DecimalValue(s)
  {
    if |s| > 0 {
      var z := ['0'] + s;
      assert z[..|z| - 1] == ['0'] + s[..|s| - 1];
      LeadingZero(s[..|s| - 1]);
    }
  }

  /** `toString(parseInt(s))` for any digit run is `s` without its leading
      zeros, which sits at the end of `s`. */
  lemma {:induction false} RenderStripped(s: string)
    requires |s| >= 1 && AllDigits(s)
    ensures NatToString(DecimalValue(s)) == StripZeros(s)
  {
    if |s| > 1 && s[0] == '0' {
      var t := s[1..];
      assert s == ['0'] + t;
      LeadingZero(t);
      assert DecimalValue(s) == DecimalValue(t);
      assert StripZeros(s) == StripZeros(t);
      RenderStripped(t);
    } else {
      StringOfValue(s);
    }
  }
}

/** Decimal numerals, as `str(n)` writes them. */
module DecimalText {

  predicate IsAsciiDigit(c: char) { '0' <= c <= '9' }

  function Digit(d: nat): (c: char)
    requires d < 10
    ensures IsAsciiDigit(c)
  {
    "0123456789"[d]
  }

  function Str(n: nat): (s: string)
    ensures s != "" && forall i :: 0 <= i < |s| ==> IsAsciiDigit(s[i])
  {
    if n < 10 then [Digit(n)] else Str(n / 10) + [Digit(n % 10)]
  }

  lemma DigitIsInjective(a: nat, b: nat)
    requires a < 10 && b < 10 && Digit(a) == Digit(b)
    ensures a == b
  {
  }

  lemma LastDigit(n: nat)
    ensures Str(n)[|Str(n)| - 1] == Digit(n % 10)
    ensures n >= 10 ==> Str(n)[..|Str(n)| - 1] == Str(n / 10)
    ensures |Str(n)| == 1 <==> n < 10
  {
  }

  /** Different numbers are written differently. */
  lemma {:induction false} StrIsInjective(a: nat, b: nat)
    requires Str(a) == Str(b)
    ensures a == b
  {
    LastDigit(a);
    LastDigit(b);
    DigitIsInjective(a % 10, b % 10);
    hide Str;
    if a >= 10 {
      StrIsInjective(a / 10, b / 10);
    }
  }
}

/** Decimal numerals as strings: printing, padding with zeros, and reading back. */
module Decimal {

  predicate IsDigit(c: char) {
    '0' <= c <= '9'
  }

  predicate AllDigits(s: string) {
    forall i :: 0 <= i < |s| ==> IsDigit(s[i])
  }

  function DigitValue(c: char): (d: nat)
    requires IsDigit(c)
    ensures d < 10
  {
    (c as int) - ('0' as int)
  }

  function DigitChar(d: nat): (c: char)
    requires d < 10
    ensures IsDigit(c) && DigitValue(c) == d
  {
    (('0' as int) + d) as char
  }

  /** Python's int(s) on a string of digits. */
  function Parse(s: string): nat
    requires AllDigits(s)
  {
    if s == "" then 0 else 10 * Parse(s[..|s| - 1]) + DigitValue(s[|s| - 1])
  }

  /** Python's str(n). */
  function Print(n: nat): (s: string)
    ensures s != "" && AllDigits(s)
  {
    if n < 10 then [DigitChar(n)] else Print(n / 10) + [DigitChar(n % 10)]
  }

  function Zeros(n: nat): (s: string)
    ensures |s| == n && AllDigits(s)
  {
    if n == 0 then "" else Zeros(n - 1) + "0"
  }

  /** Format specifier 0<width>d: at least `width` digits, more when the number needs them. */
  function Padded(n: nat, width: nat): (s: string)
    ensures s != "" && AllDigits(s)
    ensures |s| == if |Print(n)| < width then width else |Print(n)|
  {
    var digits := Print(n);
    if |digits| < width then Zeros(width - |digits|) + digits else digits
  }

  lemma {:induction false} ParsePrint(n: nat)
    ensures Parse(Print(n)) == n
  {
    if n >= 10 {
      ParsePrint(n / 10);
      assert Print(n)[..|Print(n)| - 1] == Print(n / 10);
    } else {
      assert Print(n)[..0] == "";
    }
  }

  lemma {:induction false} ParseLeadingZeros(k: nat, s: string)
    requires AllDigits(s)
    ensures Parse(Zeros(k) + s) == Parse(s)
  {
    if s != "" {
      var init := s[..|s| - 1];
      assert (Zeros(k) + s)[..|Zeros(k) + s| - 1] == Zeros(k) + init;
      ParseLeadingZeros(k, init);
    } else if k > 0 {
      assert (Zeros(k) + s) == Zeros(k) && Zeros(k)[..k - 1] == Zeros(k - 1) + "";
      ParseLeadingZeros(k - 1, "");
    }
  }

  /** Reading a printed sequence number gives it back, padded or not. */
  lemma ParsePadded(n: nat, width: nat)
    ensures Parse(Padded(n, width)) == n
  {
    ParsePrint(n);
    if |Print(n)| < width {
      ParseLeadingZeros(width - |Print(n)|, Print(n));
    }
  }

  function Pow10(k: nat): (p: nat)
    ensures p >= 1
  {
    if k == 0 then 1 else 10 * Pow10(k - 1)
  }

  /** A number needs more than k digits exactly when it has reached 10^k. */
  lemma {:induction false} PrintLength(n: nat, k: nat)
    requires k >= 1
    ensures |Print(n)| <= k <==> n < Pow10(k)
  {
    if n >= 10 && k > 1 {
      PrintLength(n / 10, k - 1);
    }
  }
}

/** Decimal text of integers, as .NET renders a `long` inside a format string
    (an optional '-' followed by the digits, no leading zeros), and its
    inverse. The member statement embeds the federation key in this form. */
module Decimal {

  predicate IsDigit(ch: char) {
    '0' <= ch <= '9'
  }

  predicate AllDigits(s: string) {
    forall i :: 0 <= i < |s| ==> IsDigit(s[i])
  }

  function DigitChar(d: nat): (ch: char)
    requires d < 10
    ensures IsDigit(ch) && ch as int - '0' as int == d
  {
    (d + '0' as int) as char
  }

  function DigitValue(ch: char): (d: nat)
    requires IsDigit(ch)
    ensures d < 10 && DigitChar(d) == ch
  {
    ch as int - '0' as int
  }

  /** The digits of `n`, most significant first. */
  function NatToText(n: nat): (s: string)
    ensures |s| > 0 && AllDigits(s)
    ensures |s| > 1 ==> s[0] != '0'
  {
    if n < 10 then [DigitChar(n)] else NatToText(n / 10) + [DigitChar(n % 10)]
  }

  /** `n.ToString()` for a `long` n. */
  function IntToText(n: int): (s: string)
    ensures |s| > 0
    ensures n < 0 <==> s[0] == '-'
  {
    if n < 0 then "-" + NatToText(-n) else NatToText(n)
  }

  /** The value of a string of digits. */
  function TextToNat(s: string): nat
    requires AllDigits(s)
  {
    if s == [] then 0 else TextToNat(s[..|s| - 1]) * 10 + DigitValue(s[|s| - 1])
  }

  /** The value of an optionally signed string of digits. */
  function TextToInt(s: string): int
    requires |s| > 0 && (if s[0] == '-' then AllDigits(s[1..]) else AllDigits(s))
  {
    if s[0] == '-' then -(TextToNat(s[1..]) as int) else TextToNat(s)
  }

  lemma {:induction false} NatToTextRoundTrip(n: nat)
    ensures TextToNat(NatToText(n)) == n
  {
    var s := NatToText(n);
    if n >= 10 {
      NatToTextRoundTrip(n / 10);
      assert s[..|s| - 1] == NatToText(n / 10);
    }
  }

  /** Reading back the text of a key gives the key. */
  lemma IntToTextRoundTrip(n: int)
    ensures var s := IntToText(n);
      (if s[0] == '-' then AllDigits(s[1..]) else AllDigits(s)) && TextToInt(s) == n
  {
    var s := IntToText(n);
    if n < 0 {
      NatToTextRoundTrip(-n);
      assert s[1..] == NatToText(-n);
    } else {
      NatToTextRoundTrip(n);
    }
  }

  /** Distinct keys have distinct texts. */
  lemma IntToTextInjective(m: int, n: int)
    ensures IntToText(m) == IntToText(n) ==> m == n
  {
    IntToTextRoundTrip(m);
    IntToTextRoundTrip(n);
  }
}

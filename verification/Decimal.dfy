/** Decimal notation of integers: what a printed number has to look like. */
module Decimal {

  function DigitChar(d: nat): char
    requires d < 10
  {
    "0123456789"[d]
  }

  function DigitValue(c: char): nat
    requires '0' <= c <= '9'
  {
    (c - '0') as nat
  }

  /** Most significant digit first, no leading zero. */
  function Digits(n: nat): (s: string)
    ensures s != ""
  {
    if n < 10 then [DigitChar(n)] else Digits(n / 10) + [DigitChar(n % 10)]
  }

  function Text(n: int): string {
    if n < 0 then "-" + Digits(-n) else Digits(n)
  }

  /** Least significant digit first. */
  function DigitsUp(n: nat): (s: string)
    ensures s != ""
  {
    if n < 10 then [DigitChar(n)] else [DigitChar(n % 10)] + DigitsUp(n / 10)
  }

  function Reverse(s: string): (r: string)
    ensures |r| == |s|
  {
    seq(|s|, i requires 0 <= i < |s| => s[|s| - 1 - i])
  }

  lemma {:induction false} DigitsReversed(n: nat)
    ensures Reverse(DigitsUp(n)) == Digits(n)
  {
    if n >= 10 {
      DigitsReversed(n / 10);
      assert Reverse([DigitChar(n % 10)] + DigitsUp(n / 10)) == Reverse(DigitsUp(n / 10)) + [DigitChar(n % 10)];
    }
  }

  /** With the sign behind the digits, reversing gives the text. */
  lemma SignedReversed(n: int)
    ensures Reverse(DigitsUp(if n < 0 then -n else n) + (if n < 0 then "-" else "")) == Text(n)
  {
    var up := DigitsUp(if n < 0 then -n else n);
    DigitsReversed(if n < 0 then -n else n);
    if n < 0 {
      assert Reverse(up + "-") == "-" + Reverse(up);
    } else {
      assert up + "" == up;
    }
  }

  predicate IsDigits(s: string) {
    forall i :: 0 <= i < |s| ==> '0' <= s[i] <= '9'
  }

  function ParseNat(s: string): nat
    requires IsDigits(s)
  {
    if s == "" then 0 else 10 * ParseNat(s[..|s| - 1]) + DigitValue(s[|s| - 1])
  }

  predicate IsNumber(s: string) {
    s != "" && (if s[0] == '-' then |s| > 1 && IsDigits(s[1..]) else IsDigits(s))
  }

  function Parse(s: string): int
    requires IsNumber(s)
  {
    if s[0] == '-' then 0 - ParseNat(s[1..]) else ParseNat(s)
  }

  lemma DigitCharValue(d: nat)
    requires d < 10
    ensures '0' <= DigitChar(d) <= '9' && DigitValue(DigitChar(d)) == d
    ensures DigitChar(d) == '0' <==> d == 0
  {
  }

  lemma ParseOneMore(s: string, c: char)
    requires IsDigits(s) && '0' <= c <= '9'
    ensures IsDigits(s + [c]) && ParseNat(s + [c]) == 10 * ParseNat(s) + DigitValue(c)
  {
    assert (s + [c])[..|s|] == s;
  }

  lemma {:induction false} DigitsParse(n: nat)
    ensures IsDigits(Digits(n)) && ParseNat(Digits(n)) == n
    ensures n != 0 ==> Digits(n)[0] != '0'
    ensures n == 0 ==> Digits(n) == "0"
  {
    hide DigitChar, DigitValue, ParseNat;
    DigitCharValue(n % 10);
    if n >= 10 {
      DigitsParse(n / 10);
      ParseOneMore(Digits(n / 10), DigitChar(n % 10));
    } else {
      ParseOneMore("", DigitChar(n));
      ParseEmpty();
      assert "" + [DigitChar(n)] == [DigitChar(n)];
    }
  }

  lemma ParseEmpty()
    ensures ParseNat("") == 0 && DigitChar(0) == '0'
  {
  }

  /** The printed text is canonical and reads back as the number it came from. */
  lemma TextRoundTrip(n: int)
    ensures IsNumber(Text(n)) && Parse(Text(n)) == n
    ensures var digits := if n < 0 then Text(n)[1..] else Text(n);
      (n < 0 <==> Text(n)[0] == '-') && (n == 0 ==> digits == "0") && (n != 0 ==> digits[0] != '0')
  {
    DigitsParse(if n < 0 then -n else n);
    if n < 0 {
      assert Text(n)[1..] == Digits(-n);
    }
  }

  function Pow10(k: nat): nat {
    if k == 0 then 1 else 10 * Pow10(k - 1)
  }

  lemma {:induction false} DigitCount(n: nat, k: nat)
    requires 1 <= k && n < Pow10(k)
    ensures |Digits(n)| <= k
  {
    if n >= 10 {
      assert k > 1 by { assert Pow10(1) == 10 * Pow10(0); }
      DigitCount(n / 10, k - 1);
    }
  }

  /** Every signed or unsigned 64-bit value prints in at most 20 characters. */
  lemma TextFits(n: int)
    requires -0x8000_0000_0000_0000 <= n < 0x1_0000_0000_0000_0000
    ensures |Text(n)| <= 20
  {
    PowersOfTen();
    if n < 0 { DigitCount(-n, 19); } else { DigitCount(n, 20); }
  }

  lemma PowersOfTen()
    ensures Pow10(19) == 10_000_000_000_000_000_000 && Pow10(20) == 10 * Pow10(19)
  {
    assert Pow10(5) == 100_000;
    assert Pow10(10) == 10_000_000_000;
    assert Pow10(15) == 1_000_000_000_000_000;
  }
}

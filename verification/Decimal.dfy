/** Decimal text of numbers: what `to_string` writes and what `str::parse` reads back. */
module Decimal {
  import opened Wrappers
  import Utf8

  const U8_MAX: nat := 0xFF
  const U64_MAX: nat := 0xFFFF_FFFF_FFFF_FFFF

  predicate IsDigit(c: char) {
    '0' <= c <= '9'
  }

  predicate AllDigits(s: string) {
    forall i | 0 <= i < |s| :: IsDigit(s[i])
  }

  function DigitChar(d: nat): (c: char)
    requires d < 10
    ensures IsDigit(c)
  {
    '0' + d as char
  }

  function DigitValue(c: char): (d: nat)
    requires IsDigit(c)
    ensures d < 10
  {
    (c - '0') as nat
  }

  /** The shortest decimal text of `n`. */
  function ToText(n: nat): (s: string)
    ensures s != [] && AllDigits(s)
    ensures s[0] == '0' <==> n == 0
    ensures n < 10 <==> |s| == 1
  {
    if n < 10 then [DigitChar(n)] else ToText(n / 10) + [DigitChar(n % 10)]
  }

  function IntToText(n: int): string {
    if n < 0 then "-" + ToText(-n) else ToText(n)
  }

  /** The number a run of digits spells. */
  function Value(s: string): nat
    requires AllDigits(s)
  {
    if s == [] then 0 else Value(s[..|s| - 1]) * 10 + DigitValue(s[|s| - 1])
  }

  function Pow10(k: nat): (r: nat)
    ensures r > 0
  {
    if k == 0 then 1 else 10 * Pow10(k - 1)
  }

  /** `str::parse` into an unsigned width whose largest value is `max`: an optional plus sign, then
      digits and nothing else. */
  function ParseUnsigned(s: string, max: nat): Option<nat> {
    var digits := if s != [] && s[0] == '+' then s[1..] else s;
    if digits != [] && AllDigits(digits) && Value(digits) <= max then Some(Value(digits)) else None
  }

  /** A digit is written as the character it is known by, and read back as itself. */
  lemma DigitIsUsual(d: nat)
    requires d < 10
    ensures DigitChar(d) == "0123456789"[d] && DigitValue("0123456789"[d]) == d
  {
  }

  lemma {:induction false} ValueOfText(n: nat)
    ensures Value(ToText(n)) == n
  {
    if n >= 10 {
      ValueOfText(n / 10);
      assert ToText(n)[..|ToText(n)| - 1] == ToText(n / 10);
    }
  }

  lemma ParseOfText(n: nat, max: nat)
    requires n <= max
    ensures ParseUnsigned(ToText(n), max) == Some(n)
  {
    ValueOfText(n);
  }

  /** Two numbers never share a decimal text. */
  lemma TextIsInjective(m: nat, n: nat)
    requires ToText(m) == ToText(n)
    ensures m == n
  {
    ValueOfText(m);
    ValueOfText(n);
  }

  lemma TimesTen(x: int, y: int, z: int)
    ensures (x * y + z) * 10 == x * (10 * y) + z * 10
  {
  }

  lemma {:induction false} ValueOfConcat(a: string, b: string)
    requires AllDigits(a) && AllDigits(b)
    ensures AllDigits(a + b)
    ensures Value(a + b) == Value(a) * Pow10(|b|) + Value(b)
  {
    if b == [] {
      assert a + b == a;
    } else {
      var last := |b| - 1;
      ValueOfConcat(a, b[..last]);
      assert (a + b)[..|a + b| - 1] == a + b[..last];
      TimesTen(Value(a), Pow10(last), Value(b[..last]));
    }
  }

  lemma {:induction false} TextLength(n: nat, k: nat)
    requires k > 0 && n < Pow10(k)
    ensures |ToText(n)| <= k
  {
    if n >= 10 {
      TextLength(n / 10, k - 1);
    }
  }

  /** Every 64-bit count is at most twenty digits, so it always fits a short string. */
  lemma CountIsShort(n: nat)
    requires n <= U64_MAX
    ensures |Utf8.Encode(ToText(n))| == |ToText(n)| <= 20
  {
    assert Pow10(20) == 100_000_000_000_000_000_000 by {
      assert Pow10(10) == 10_000_000_000;
      assert Pow10(15) == 1_000_000_000_000_000;
    }
    TextLength(n, 20);
    Utf8.AsciiLength(ToText(n));
  }
}

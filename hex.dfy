/**
 Fixed-width lower-case hexadecimal, as PHP's `hash(..., false)` renders a
 digest: most significant digit first, padded with leading zeros.
 */
module Hex {

  function Pow16(k: nat): (p: nat)
    ensures p >= 1
  {
    if k == 0 then 1 else 16 * Pow16(k - 1)
  }

  predicate IsDigit(c: char)
  {
    '0' <= c <= '9' || 'a' <= c <= 'f'
  }

  predicate AllDigits(s: string)
  {
    forall i :: 0 <= i < |s| ==> IsDigit(s[i])
  }

  /** The character for the digit value d. */
  function DigitChar(d: nat): (c: char)
    requires d < 16
    ensures IsDigit(c)
  {
    if d < 10 then ('0' as int + d) as char else ('a' as int + d - 10) as char
  }

  /** The value of a digit character: the inverse of DigitChar. */
  function DigitValue(c: char): (d: nat)
    requires IsDigit(c)
    ensures d < 16 && DigitChar(d) == c
  {
    if c <= '9' then c as int - '0' as int else c as int - 'a' as int + 10
  }

  /** n in exactly `width` digits. */
  function Render(n: nat, width: nat): (s: string)
    requires n < Pow16(width)
    ensures |s| == width && AllDigits(s)
  {
    if width == 0 then []
    else Render(n / 16, width - 1) + [DigitChar(n % 16)]
  }

  /** The number a string of digits denotes. */
  function Parse(s: string): (n: nat)
    requires AllDigits(s)
    ensures n < Pow16(|s|)
  {
    if s == [] then 0
    else Parse(s[..|s| - 1]) * 16 + DigitValue(s[|s| - 1])
  }

  /** Parse undoes Render. */
  lemma {:induction false} ParseRender(n: nat, width: nat)
    requires n < Pow16(width)
    ensures Parse(Render(n, width)) == n
  {
    if width > 0 {
      var s := Render(n, width);
      assert s[..|s| - 1] == Render(n / 16, width - 1);
      ParseRender(n / 16, width - 1);
    }
  }

  /** Two numbers of the same width render alike exactly when they are equal. */
  lemma RenderInjective(m: nat, n: nat, width: nat)
    requires m < Pow16(width) && n < Pow16(width)
    ensures Render(m, width) == Render(n, width) <==> m == n
  {
    ParseRender(m, width);
    ParseRender(n, width);
  }

  /** The 32-bit values are exactly the ones that fit in eight digits. */
  lemma EightDigits()
    ensures Pow16(8) == 0x1_0000_0000
  {
  }
}

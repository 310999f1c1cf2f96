/**
 * Decimal digit strings: the zero-padded fields of the date formats and the
 * decimal text of a number inside an error message.
 */
module Digits {
  import opened Wrappers

  function Pow10(n: nat): (r: nat)
    ensures r >= 1
  {
    if n == 0 then 1 else 10 * Pow10(n - 1)
  }

  predicate IsDigit(c: char) {
    '0' <= c <= '9'
  }

  function DigitChar(n: int): (c: char)
    requires 0 <= n <= 9
    ensures IsDigit(c)
  {
    (('0' as int) + n) as char
  }

  /** The lowest `width` decimal digits of `n`, zero-padded on the left (`%02d`, `%04d`). */
  function PadDigits(n: nat, width: nat): (s: string)
    ensures |s| == width
    ensures forall i :: 0 <= i < |s| ==> IsDigit(s[i])
  {
    if width == 0 then "" else PadDigits(n / 10, width - 1) + [DigitChar(n % 10)]
  }

  /** The number that a string of decimal digits spells, or None if some character is not a digit. */
  function ParseDigits(s: string): (r: Option<nat>)
    ensures r.Some? <==> forall i :: 0 <= i < |s| ==> IsDigit(s[i])
    ensures r.Some? ==> r.value < Pow10(|s|)
  {
    if s == [] then Some(0)
    else
      var last := s[|s| - 1];
      match ParseDigits(s[..|s| - 1])
      case None => None
      case Some(high) =>
        if IsDigit(last) then Some(high * 10 + (last as int - '0' as int)) else None
  }

  lemma {:induction false} ParsePadDigits(n: nat, width: nat)
    requires n < Pow10(width)
    ensures ParseDigits(PadDigits(n, width)) == Some(n)
  {
    if width > 0 {
      var s := PadDigits(n, width);
      assert s[..|s| - 1] == PadDigits(n / 10, width - 1);
      ParsePadDigits(n / 10, width - 1);
    }
  }

  lemma {:induction false} PadParseDigits(s: string, n: nat)
    requires ParseDigits(s) == Some(n)
    ensures PadDigits(n, |s|) == s
  {
    if s != [] {
      var high := ParseDigits(s[..|s| - 1]).value;
      var v := s[|s| - 1] as int - '0' as int;
      assert n == high * 10 + v;
      assert n / 10 == high && n % 10 == v;
      PadParseDigits(s[..|s| - 1], high);
      assert s == s[..|s| - 1] + [s[|s| - 1]];
    }
  }
}

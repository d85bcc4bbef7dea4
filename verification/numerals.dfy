/** The number-to-text conversions the exporter relies on: `Math.round`,
    `Number.prototype.toString` in bases 10 and 16 on integers,
    `String.prototype.padStart(2, '0')` and `Number.prototype.toFixed(2)`.
    Numbers are exact reals here; binary floating-point error is not modelled. */
module Numerals {

  /** `Math.round`: the nearest integer, halves rounded towards +infinity. */
  function Round(x: real): (r: int)
    ensures x - 0.5 < r as real <= x + 0.5
  {
    (x + 0.5).Floor
  }

  predicate IsDecimalDigit(c: char) {
    '0' <= c <= '9'
  }

  /** A non-empty string of decimal digits. */
  predicate IsDecimalText(s: string) {
    1 <= |s| && forall i :: 0 <= i < |s| ==> IsDecimalDigit(s[i])
  }

  predicate IsHexDigit(c: char) {
    IsDecimalDigit(c) || 'a' <= c <= 'f'
  }

  /** The lowercase digit for 0..15. */
  function Digit(d: nat): (c: char)
    requires d < 16
    ensures IsHexDigit(c)
    ensures d < 10 ==> IsDecimalDigit(c)
  {
    if d < 10 then ('0' as int + d) as char else ('a' as int + d - 10) as char
  }

  /** The value of a lowercase digit; the inverse of Digit. */
  function DigitValue(c: char): int {
    if IsDecimalDigit(c) then c as int - '0' as int else c as int - 'a' as int + 10
  }

  /** The value of a digit string in the given base. */
  function DigitsValue(s: string, base: nat): int {
    if |s| == 0 then 0 else DigitsValue(s[..|s| - 1], base) * base + DigitValue(s[|s| - 1])
  }

  /** `n.toString(base)` for a non-negative integer, base 10 or 16. */
  function NatToDigits(n: nat, base: nat): (s: string)
    requires base == 10 || base == 16
    ensures 1 <= |s|
    ensures forall i :: 0 <= i < |s| ==> IsHexDigit(s[i])
    ensures base == 10 ==> forall i :: 0 <= i < |s| ==> IsDecimalDigit(s[i])
    decreases n
  {
    if n < base then [Digit(n)] else NatToDigits(n / base, base) + [Digit(n % base)]
  }

  /** `i.toString(16)` on an integer: lowercase digits, a leading '-' when negative. */
  function IntToHex(i: int): string {
    if i < 0 then "-" + NatToDigits(-i, 16) else NatToDigits(i, 16)
  }

  /** `String(i)` on an integer. */
  function IntToDecimal(i: int): string {
    if i < 0 then "-" + NatToDigits(-i, 10) else NatToDigits(i, 10)
  }

  /** `s.padStart(2, '0')`. */
  function PadStart2(s: string): (r: string)
    ensures |s| >= 2 ==> r == s
    ensures |s| < 2 ==> |r| == 2 && r[2 - |s|..] == s
    ensures forall i :: 0 <= i < |r| - |s| ==> r[i] == '0'
  {
    if |s| >= 2 then s else seq(2 - |s|, _ => '0') + s
  }

  /** Rendering a non-negative integer and reading it back gives the integer. */
  lemma {:induction false} DigitsRoundTrip(n: nat, base: nat)
    requires base == 10 || base == 16
    ensures DigitsValue(NatToDigits(n, base), base) == n
    decreases n
  {
    var s := NatToDigits(n, base);
    if n < base {
      assert s[..0] == [];
    } else {
      DigitsRoundTrip(n / base, base);
      assert s[..|s| - 1] == NatToDigits(n / base, base);
    }
  }

  /** Leading zeros do not change a digit string's value. */
  lemma {:induction false} LeadingZeros(z: nat, s: string, base: nat)
    ensures DigitsValue(seq(z, _ => '0') + s, base) == DigitsValue(s, base)
    decreases |s|
  {
    var zs := seq(z, _ => '0');
    if |s| == 0 {
      ZerosValue(z, base);
      assert zs + s == zs;
    } else {
      var t := zs + s;
      assert t[..|t| - 1] == zs + s[..|s| - 1];
      LeadingZeros(z, s[..|s| - 1], base);
    }
  }

  lemma {:induction false} ZerosValue(z: nat, base: nat)
    ensures DigitsValue(seq(z, _ => '0'), base) == 0
  {
    if z > 0 {
      var zs := seq(z, _ => '0');
      assert zs[..z - 1] == seq(z - 1, _ => '0');
      ZerosValue(z - 1, base);
    }
  }

  /** A channel value 0..255 renders, after `toString(16)` and `padStart(2, '0')`,
      as exactly two lowercase hex digits that read back as the value. */
  lemma ByteHex(n: int)
    requires 0 <= n < 256
    ensures |PadStart2(IntToHex(n))| == 2
    ensures forall i :: 0 <= i < 2 ==> IsHexDigit(PadStart2(IntToHex(n))[i])
    ensures DigitsValue(PadStart2(IntToHex(n)), 16) == n
  {
    var h := NatToDigits(n, 16);
    if n >= 16 {
      assert NatToDigits(n / 16, 16) == [Digit(n / 16)];
    }
    assert |h| <= 2;
    DigitsRoundTrip(n, 16);
    LeadingZeros(2 - |h|, h, 16);
  }

  /** `x.toFixed(2)`: the sign, the integer part, a point and exactly two
      decimals of the hundredths nearest to |x| (ties up, as `toFixed` picks
      the larger candidate). */
  function ToFixed2(x: real): string {
    if x < 0.0 then "-" + Fixed2(-x) else Fixed2(x)
  }

  function Fixed2(x: real): string
    requires x >= 0.0
  {
    var hundredths := Round(x * 100.0);
    NatToDigits(hundredths / 100, 10) + "." + [Digit(hundredths % 100 / 10), Digit(hundredths % 10)]
  }

  /** A non-negative `toFixed(2)` splits at its one point into a whole part and
      exactly two decimals, which together read back as the hundredths nearest x. */
  lemma Fixed2Reads(x: real) returns (whole: string, frac: string)
    requires x >= 0.0
    ensures ToFixed2(x) == whole + "." + frac
    ensures |frac| == 2 && 1 <= |whole|
    ensures forall i :: 0 <= i < |whole| ==> IsDecimalDigit(whole[i])
    ensures forall i :: 0 <= i < 2 ==> IsDecimalDigit(frac[i])
    ensures DigitsValue(whole, 10) * 100 + DigitsValue(frac, 10) == Round(x * 100.0)
    ensures x * 100.0 - 0.5 < Round(x * 100.0) as real <= x * 100.0 + 0.5
  {
    var h := Round(x * 100.0);
    var tens, units := h % 100 / 10, h % 10;
    whole := NatToDigits(h / 100, 10);
    frac := [Digit(tens), Digit(units)];
    DigitsRoundTrip(h / 100, 10);
    assert frac[..1] == [Digit(tens)];
    assert frac[..1][..0] == [];
    assert DigitsValue(frac[..1], 10) == tens;
    assert DigitsValue(frac, 10) == DigitsValue(frac[..1], 10) * 10 + DigitValue(Digit(units));
    assert DigitsValue(frac, 10) == tens * 10 + units;
    assert h % 100 == tens * 10 + units;
    assert h == h / 100 * 100 + h % 100;
  }
}

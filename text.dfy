/**
 * Strings as Rust sees them: `str::len` is the UTF-8 byte length, integers
 * are rendered by `to_string` and read back by `<u32 as FromStr>::from_str`.
 */
module Text {
  import opened Wrappers

  /** Number of bytes UTF-8 uses for one Unicode scalar value. */
  function Utf8Width(c: char): (w: nat)
    ensures 1 <= w <= 4
    ensures w == 1 <==> c as int < 0x80
  {
    if c as int < 0x80 then 1
    else if c as int < 0x800 then 2
    else if c as int < 0x1_0000 then 3
    else 4
  }

  /** Rust's `s.len()`: the length of `s` in UTF-8 bytes. */
  function Utf8Length(s: string): (n: nat)
    ensures |s| <= n <= 4 * |s|
  {
    if s == [] then 0 else Utf8Width(s[0]) + Utf8Length(s[1..])
  }

  predicate IsAscii(s: string)
  {
    forall i :: 0 <= i < |s| ==> s[i] as int < 0x80
  }

  /** A string never has more characters than bytes, and has exactly as many when it is ASCII. */
  lemma {:induction false} Utf8LengthBounds(s: string)
    ensures |s| <= Utf8Length(s) <= 4 * |s|
    ensures Utf8Length(s) == |s| <==> IsAscii(s)
  {
    if s != [] {
      Utf8LengthBounds(s[1..]);
      if IsAscii(s[1..]) && s[0] as int < 0x80 {
        forall i | 0 <= i < |s| ensures s[i] as int < 0x80 {
          if i > 0 { assert s[i] == s[1..][i - 1]; }
        }
      }
      if IsAscii(s) {
        forall i | 0 <= i < |s[1..]| ensures s[1..][i] as int < 0x80 {
          assert s[1..][i] == s[i + 1];
        }
      }
    }
  }

  lemma Utf8LengthOfAscii(s: string)
    requires IsAscii(s)
    ensures Utf8Length(s) == |s|
  {
    Utf8LengthBounds(s);
  }

  predicate IsDigit(c: char)
  {
    '0' <= c <= '9'
  }

  predicate AllDigits(s: string)
  {
    forall i :: 0 <= i < |s| ==> IsDigit(s[i])
  }

  function DigitValue(c: char): (d: nat)
    requires IsDigit(c)
    ensures d < 10
  {
    c as int - '0' as int
  }

  function DigitChar(d: nat): (c: char)
    requires d < 10
    ensures IsDigit(c) && DigitValue(c) == d
  {
    ('0' as int + d) as char
  }

  function Pow10(k: nat): (p: nat)
    ensures p >= 1
  {
    if k == 0 then 1 else 10 * Pow10(k - 1)
  }

  /** The number a string of decimal digits denotes (leading zeros allowed). */
  function DecimalValue(s: string): (v: nat)
    requires AllDigits(s)
  {
    if s == [] then 0 else 10 * DecimalValue(s[..|s| - 1]) + DigitValue(s[|s| - 1])
  }

  lemma {:induction false} DecimalValueBound(s: string)
    requires AllDigits(s)
    ensures DecimalValue(s) < Pow10(|s|)
  {
    if s != [] {
      DecimalValueBound(s[..|s| - 1]);
    }
  }

  /** The largest value of Rust's `u32`. */
  const U32_MAX: nat := 0xFFFF_FFFF

  /**
   * Rust's `<u32 as FromStr>::from_str`: an optional leading '+', then one or
   * more ASCII digits, whose value must fit in 32 bits.  A lone "+" and a
   * leading '-' are rejected as invalid digits.
   */
  function ParseU32(s: string): (r: Option<nat>)
    ensures r.Some? ==> r.value <= U32_MAX
  {
    if s == [] then None
    else
      var digits := if s[0] == '+' then s[1..] else s;
      if digits == [] || !AllDigits(digits) then None
      else if DecimalValue(digits) > U32_MAX then None
      else Some(DecimalValue(digits))
  }

  /** Rust's `to_string` of a non-negative integer: its decimal digits without leading zeros. */
  function ToDecimal(n: nat): (s: string)
    ensures |s| >= 1 && AllDigits(s)
  {
    if n < 10 then [DigitChar(n)] else ToDecimal(n / 10) + [DigitChar(n % 10)]
  }

  /** The rendering is a non-empty digit string denoting `n`, first digit non-zero unless `n` is 0. */
  lemma {:induction false} ToDecimalCorrect(n: nat)
    ensures |ToDecimal(n)| >= 1 && AllDigits(ToDecimal(n))
    ensures DecimalValue(ToDecimal(n)) == n
    ensures n > 0 ==> ToDecimal(n)[0] != '0'
  {
    if n >= 10 {
      ToDecimalCorrect(n / 10);
      var s := ToDecimal(n);
      assert s[..|s| - 1] == ToDecimal(n / 10);
      assert s[0] == ToDecimal(n / 10)[0];
    }
  }

  /** A number with k digits has a k-character rendering. */
  lemma {:induction false} ToDecimalLength(n: nat, k: nat)
    requires Pow10(k) <= n < Pow10(k + 1)
    ensures |ToDecimal(n)| == k + 1
  {
    if k > 0 {
      ToDecimalLength(n / 10, k - 1);
    }
  }

  /** Reading back the rendering of a 32-bit value yields that value. */
  lemma ParseU32ToDecimal(n: nat)
    requires n <= U32_MAX
    ensures ParseU32(ToDecimal(n)) == Some(n)
  {
    ToDecimalCorrect(n);
  }
}

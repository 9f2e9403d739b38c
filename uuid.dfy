/**
 * The part of the `uuid` crate the service relies on: `Uuid::parse_str`,
 * the `Display` rendering used by `to_string`, and `Uuid::new_v4`.
 * A UUID is held as its 32 hexadecimal digits, most significant first.
 */
module Uuid {
  import opened Wrappers
  import opened Text

  type Nibble = n: nat | n < 16

  type Uuid = s: seq<Nibble> | |s| == 32 witness seq(32, _ => 0)

  predicate IsHexDigit(c: char)
  {
    ('0' <= c <= '9') || ('a' <= c <= 'f') || ('A' <= c <= 'F')
  }

  /** The value of a hexadecimal digit; upper and lower case are the same. */
  function HexDigitValue(c: char): (n: Nibble)
    requires IsHexDigit(c)
  {
    if '0' <= c <= '9' then c as int - '0' as int
    else if 'a' <= c <= 'f' then c as int - 'a' as int + 10
    else c as int - 'A' as int + 10
  }

  function HexDigit(n: Nibble, upper: bool): (c: char)
    ensures IsHexDigit(c) && HexDigitValue(c) == n
    ensures upper ==> !('a' <= c <= 'f')
    ensures !upper ==> !('A' <= c <= 'F')
  {
    if n < 10 then ('0' as int + n) as char
    else if upper then ('A' as int + n - 10) as char
    else ('a' as int + n - 10) as char
  }

  /** Positions of the four hyphens in the 36-character hyphenated form (8-4-4-4-12). */
  predicate IsHyphenPos(i: int)
  {
    i == 8 || i == 13 || i == 18 || i == 23
  }

  /** Where the k-th hex digit stands in the hyphenated form. */
  function CharIndex(k: nat): (i: nat)
    requires k < 32
    ensures i < 36 && !IsHyphenPos(i)
  {
    if k < 8 then k else if k < 12 then k + 1 else if k < 16 then k + 2 else if k < 20 then k + 3 else k + 4
  }

  /** Which hex digit a non-hyphen position of the hyphenated form holds. */
  function NibbleIndex(i: nat): (k: nat)
    requires i < 36 && !IsHyphenPos(i)
    ensures k < 32 && CharIndex(k) == i
  {
    if i < 8 then i else if i < 13 then i - 1 else if i < 18 then i - 2 else if i < 23 then i - 3 else i - 4
  }

  /** The 32-digit form without hyphens. */
  function ParseSimple(s: string): Option<Uuid>
    requires |s| == 32
  {
    if forall i :: 0 <= i < 32 ==> IsHexDigit(s[i]) then Some(seq(32, k requires 0 <= k < 32 => HexDigitValue(s[k])))
    else None
  }

  predicate HyphenatedShape(s: string)
    requires |s| == 36
  {
    forall i :: 0 <= i < 36 ==> if IsHyphenPos(i) then s[i] == '-' else IsHexDigit(s[i])
  }

  /** The 8-4-4-4-12 form. */
  function ParseHyphenated(s: string): Option<Uuid>
    requires |s| == 36
  {
    if HyphenatedShape(s) then Some(seq(32, k requires 0 <= k < 32 => HexDigitValue(s[CharIndex(k)])))
    else None
  }

  /**
   * `Uuid::parse_str`: the simple form (32 characters), the hyphenated form
   * (36), the hyphenated form in braces (38) and the hyphenated form after
   * the prefix "urn:uuid:" (45); digits in either case.  Every other input
   * is rejected.  The crate inspects bytes; all accepted inputs are ASCII,
   * so inspecting characters accepts exactly the same strings.
   */
  function ParseStr(s: string): (r: Option<Uuid>)
    ensures r.Some? ==> |s| == 32 || |s| == 36 || |s| == 38 || |s| == 45
    ensures |s| == 38 && r.Some? ==> s[0] == '{' && s[37] == '}' && ParseHyphenated(s[1..37]) == r
    ensures |s| == 45 && r.Some? ==> s[..9] == "urn:uuid:" && ParseHyphenated(s[9..]) == r
  {
    if |s| == 32 then ParseSimple(s)
    else if |s| == 36 then ParseHyphenated(s)
    else if |s| == 38 && s[0] == '{' && s[37] == '}' then ParseHyphenated(s[1..37])
    else if |s| == 45 && s[..9] == "urn:uuid:" then ParseHyphenated(s[9..])
    else None
  }

  function Hyphenated(u: Uuid, upper: bool): (s: string)
    ensures |s| == 36
  {
    seq(36, i requires 0 <= i < 36 => if IsHyphenPos(i) then '-' else HexDigit(u[NibbleIndex(i)], upper))
  }

  function Simple(u: Uuid, upper: bool): (s: string)
    ensures |s| == 32
  {
    seq(32, k requires 0 <= k < 32 => HexDigit(u[k], upper))
  }

  /** `Uuid::to_string`: the lower-case hyphenated form. */
  function ToString(u: Uuid): (s: string)
    ensures |s| == 36 && HyphenatedShape(s)
    ensures forall i :: 0 <= i < 36 ==> !('A' <= s[i] <= 'F')
    ensures ParseHyphenated(s) == Some(u)
  {
    ParseHyphenatedForm(u, false);
    Hyphenated(u, false)
  }

  lemma ParseHyphenatedForm(u: Uuid, upper: bool)
    ensures ParseHyphenated(Hyphenated(u, upper)) == Some(u)
  {
    var s := Hyphenated(u, upper);
    assert HyphenatedShape(s);
    var v := seq(32, k requires 0 <= k < 32 => HexDigitValue(s[CharIndex(k)]));
    forall k | 0 <= k < 32 ensures v[k] == u[k] {
      assert NibbleIndex(CharIndex(k)) == k;
      assert s[CharIndex(k)] == HexDigit(u[k], upper);
    }
    assert v == u;
  }

  /** Rendering and then parsing is the identity, whichever case the digits are written in. */
  lemma ParseStrHyphenated(u: Uuid, upper: bool)
    ensures ParseStr(Hyphenated(u, upper)) == Some(u)
  {
    ParseHyphenatedForm(u, upper);
  }

  lemma ParseStrToString(u: Uuid)
    ensures ParseStr(ToString(u)) == Some(u)
  {
    ParseStrHyphenated(u, false);
  }

  lemma ParseStrSimple(u: Uuid, upper: bool)
    ensures ParseStr(Simple(u, upper)) == Some(u)
  {
    var s := Simple(u, upper);
    assert forall i :: 0 <= i < 32 ==> IsHexDigit(s[i]);
    assert seq(32, k requires 0 <= k < 32 => HexDigitValue(s[k])) == u;
  }

  lemma ParseStrBraced(u: Uuid, upper: bool)
    ensures ParseStr("{" + Hyphenated(u, upper) + "}") == Some(u)
  {
    var s := "{" + Hyphenated(u, upper) + "}";
    assert s[1..37] == Hyphenated(u, upper);
    ParseHyphenatedForm(u, upper);
  }

  lemma ParseStrUrn(u: Uuid, upper: bool)
    ensures ParseStr("urn:uuid:" + Hyphenated(u, upper)) == Some(u)
  {
    var s := "urn:uuid:" + Hyphenated(u, upper);
    assert s[..9] == "urn:uuid:";
    assert s[9..] == Hyphenated(u, upper);
    ParseHyphenatedForm(u, upper);
  }

  /** Only ASCII strings are accepted, so a byte-wise and a character-wise reading agree. */
  lemma ParseStrAcceptsOnlyAscii(s: string)
    requires ParseStr(s).Some?
    ensures IsAscii(s)
  {
    if |s| == 38 {
      var t := s[1..37];
      assert HyphenatedShape(t);
      forall i | 0 <= i < |s| ensures s[i] as int < 0x80 {
        if 0 < i < 37 { assert s[i] == t[i - 1]; }
      }
    } else if |s| == 45 {
      var t := s[9..];
      assert HyphenatedShape(t);
      forall i | 0 <= i < |s| ensures s[i] as int < 0x80 {
        if i < 9 { assert s[i] == "urn:uuid:"[i]; } else { assert s[i] == t[i - 9]; }
      }
    }
  }

  /** The version digit (RFC 9562, section 4.2). */
  function Version(u: Uuid): Nibble
  {
    u[12]
  }

  /** The variant bits `10` of RFC 9562, section 4.1, in the high bits of digit 16. */
  predicate IsRfcVariant(u: Uuid)
  {
    8 <= u[16] < 12
  }

  /**
   * `Uuid::new_v4`: 122 random bits with the version set to 4 and the variant
   * set to the RFC one.  The random source is a parameter.
   */
  function NewV4(random: Uuid): (u: Uuid)
    ensures Version(u) == 4 && IsRfcVariant(u)
    ensures forall k :: 0 <= k < 32 && k != 12 && k != 16 ==> u[k] == random[k]
  {
    random[12 := 4][16 := 8 + random[16] % 4]
  }
}

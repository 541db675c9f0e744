/**
 * The string built-ins the order screen calls, with the meaning ECMA-262 gives them:
 * `String.prototype.toLowerCase` (search filters), `String.prototype.includes`
 * (search filters), the global `parseInt` with no radix (the quantity field) and
 * `Number.prototype.toString` on an integer (what the quantity field displays).
 */
module Text {
  import opened Wrappers

  // ---------------------------------------------------------------------------
  // toLowerCase, restricted to ASCII letters

  predicate IsUpperAscii(c: char) { 'A' <= c <= 'Z' }

  function LowerChar(c: char): (r: char)
    ensures !IsUpperAscii(r)
    ensures IsUpperAscii(c) ==> r as int == c as int + 32
    ensures !IsUpperAscii(c) ==> r == c
  {
    if IsUpperAscii(c) then (c as int + 32) as char else c
  }

  /** `s.toLowerCase()`: every ASCII capital replaced by its small letter, nothing else touched. */
  function ToLower(s: string): (r: string)
    ensures |r| == |s|
    ensures forall i :: 0 <= i < |s| ==> r[i] == LowerChar(s[i])
  {
    seq(|s|, i requires 0 <= i < |s| => LowerChar(s[i]))
  }

  /** Lower-casing a lower-cased string changes nothing. */
  lemma ToLowerIdempotent(s: string)
    ensures ToLower(ToLower(s)) == ToLower(s)
  {
  }

  // ---------------------------------------------------------------------------
  // includes

  /** `sub` occurs in `s` starting at position `i`. */
  predicate OccursAt(s: string, sub: string, i: nat) {
    i + |sub| <= |s| && s[i..i + |sub|] == sub
  }

  /** `s.includes(sub)`: a left-to-right scan for a starting position of `sub`. */
  function Includes(s: string, sub: string): bool
    decreases |s|
  {
    if |sub| <= |s| && s[..|sub|] == sub then true
    else if s == [] then false
    else Includes(s[1..], sub)
  }

  /** The scan answers yes exactly when `sub` occurs somewhere in `s`. */
  lemma {:induction false} IncludesIffOccurs(s: string, sub: string)
    ensures Includes(s, sub) <==> exists i: nat :: OccursAt(s, sub, i)
    decreases |s|
  {
    if |sub| <= |s| && s[..|sub|] == sub {
      assert OccursAt(s, sub, 0);
    } else if s == [] {
      forall i: nat ensures !OccursAt(s, sub, i) {
        assert |sub| > 0;
      }
    } else {
      IncludesIffOccurs(s[1..], sub);
      forall i: nat | OccursAt(s[1..], sub, i) ensures OccursAt(s, sub, i + 1) {
        assert s[1..][i..i + |sub|] == s[i + 1..i + 1 + |sub|];
      }
      forall i: nat | OccursAt(s, sub, i) ensures i >= 1 && OccursAt(s[1..], sub, i - 1) {
        assert s[1..][i - 1..i - 1 + |sub|] == s[i..i + |sub|];
      }
    }
  }

  /** Every string includes the empty string, so an empty search query matches everything. */
  lemma IncludesEmpty(s: string)
    ensures Includes(s, "")
  {
  }

  // ---------------------------------------------------------------------------
  // parseInt(text), radix omitted

  /** WhiteSpace and LineTerminator code points, which parseInt skips before the number. */
  predicate IsWhitespace(c: char) {
    || c == '\t' || c == '\U{000B}' || c == '\U{000C}' || c == ' ' || c == '\U{00A0}'
    || c == '\U{FEFF}' || c == '\U{1680}' || ('\U{2000}' <= c <= '\U{200A}')
    || c == '\U{202F}' || c == '\U{205F}' || c == '\U{3000}'
    || c == '\n' || c == '\r' || c == '\U{2028}' || c == '\U{2029}'
  }

  /** `s` with its leading whitespace removed. */
  function TrimStart(s: string): (r: string)
    ensures |r| <= |s| && r == s[|s| - |r|..]
    ensures r == [] || !IsWhitespace(r[0])
    ensures forall i :: 0 <= i < |s| - |r| ==> IsWhitespace(s[i])
  {
    if s != [] && IsWhitespace(s[0]) then TrimStart(s[1..]) else s
  }

  /** Value of `c` as a digit of radix up to 36 (letters of either case count 10..35); 36 when it is none. */
  function DigitValue(c: char): (d: nat)
    ensures d <= 36
    ensures '0' <= c <= '9' <==> d < 10
  {
    if '0' <= c <= '9' then c as int - '0' as int
    else if 'a' <= c <= 'z' then c as int - 'a' as int + 10
    else if 'A' <= c <= 'Z' then c as int - 'A' as int + 10
    else 36
  }

  /** The longest prefix of `s` made of radix-`radix` digits. */
  function DigitPrefix(s: string, radix: nat): (z: string)
    ensures |z| <= |s| && z == s[..|z|]
    ensures forall i :: 0 <= i < |z| ==> DigitValue(z[i]) < radix
    ensures |z| < |s| ==> DigitValue(s[|z|]) >= radix
  {
    if s != [] && DigitValue(s[0]) < radix then [s[0]] + DigitPrefix(s[1..], radix) else []
  }

  /** The number the digit string `z` denotes in radix `radix`, most significant digit first. */
  function DigitsValue(z: string, radix: nat): nat
  {
    if z == [] then 0 else DigitsValue(z[..|z| - 1], radix) * radix + DigitValue(z[|z| - 1])
  }

  /**
   * The magnitude parseInt reads from text that follows the sign: a "0x"/"0X" prefix
   * selects radix 16, otherwise radix 10; then the longest run of digits of that radix.
   * None (NaN) when that run is empty.
   */
  function ParseMagnitude(s: string): Option<nat>
  {
    var hex := |s| >= 2 && s[0] == '0' && (s[1] == 'x' || s[1] == 'X');
    var radix := if hex then 16 else 10;
    var z := DigitPrefix(if hex then s[2..] else s, radix);
    if z == [] then None else Some(DigitsValue(z, radix))
  }

  /** parseInt after the whitespace: one optional sign, then the magnitude. */
  function ParseSigned(s: string): Option<int>
  {
    var negative := s != [] && s[0] == '-';
    var unsigned := if s != [] && (s[0] == '-' || s[0] == '+') then s[1..] else s;
    match ParseMagnitude(unsigned)
    case None => None
    case Some(m) => Some((if negative then -1 else 1) * m)
  }

  /** `parseInt(text)`: skip leading whitespace, then read a signed magnitude. None stands for NaN. */
  function ParseInt(text: string): Option<int>
  {
    ParseSigned(TrimStart(text))
  }

  /** `parseInt(text) || 0`: NaN (and zero) become 0. */
  function ParseQuantity(text: string): int
  {
    match ParseInt(text)
    case None => 0
    case Some(v) => v
  }

  // ---------------------------------------------------------------------------
  // Number.prototype.toString on an integer

  function DigitChar(d: nat): (c: char)
    requires d < 10
    ensures '0' <= c <= '9' && DigitValue(c) == d
  {
    ('0' as int + d) as char
  }

  /** Decimal digits of `n`, without leading zeros. */
  function NatToString(n: nat): (s: string)
    ensures |s| >= 1
    ensures forall i :: 0 <= i < |s| ==> '0' <= s[i] <= '9'
    ensures |s| >= 2 ==> s[0] != '0'
  {
    if n < 10 then [DigitChar(n)] else NatToString(n / 10) + [DigitChar(n % 10)]
  }

  /** `String(i)` for an integer `i`. */
  function IntToString(i: int): string
  {
    if i < 0 then "-" + NatToString(-i) else NatToString(i)
  }

  /** Reading the decimal digits of `n` back gives `n`. */
  lemma {:induction false} NatToStringValue(n: nat)
    ensures DigitsValue(NatToString(n), 10) == n
  {
    if n >= 10 {
      NatToStringValue(n / 10);
      var s := NatToString(n);
      assert s[..|s| - 1] == NatToString(n / 10);
    }
  }

  /** A string of decimal digits is its own longest decimal-digit prefix. */
  lemma DigitPrefixOfDigits(digits: string)
    requires forall i :: 0 <= i < |digits| ==> '0' <= digits[i] <= '9'
    ensures DigitPrefix(digits, 10) == digits
  {
  }

  /** The magnitude read from the decimal digits of `n` is `n`. */
  lemma ParseMagnitudeOfDigits(n: nat)
    ensures ParseMagnitude(NatToString(n)) == Some(n)
  {
    var digits := NatToString(n);
    NatToStringValue(n);
    DigitPrefixOfDigits(digits);
    assert !(|digits| >= 2 && digits[0] == '0');
  }

  /** Leading whitespace is all TrimStart removes. */
  lemma TrimStartNoWhitespace(s: string)
    requires s != [] && !IsWhitespace(s[0])
    ensures TrimStart(s) == s
  {
  }

  /** An optional minus sign followed by the decimal digits of `n` reads as plus or minus `n`. */
  lemma ParseSignedDigits(s: string, negative: bool, n: nat)
    requires s == (if negative then "-" else "") + NatToString(n)
    ensures ParseSigned(s) == Some((if negative then -1 else 1) * n)
  {
    ParseMagnitudeOfDigits(n);
    if negative {
      assert s[0] == '-' && s[1..] == NatToString(n);
    } else {
      assert s == NatToString(n) && '0' <= s[0] <= '9';
    }
  }

  /** `parseInt` reads the rendering of a negative integer back. */
  lemma ParseNegative(i: int)
    requires i < 0
    ensures ParseInt(IntToString(i)) == Some(i)
  {
    var s := IntToString(i);
    assert s == "-" + NatToString(-i) && s[0] == '-';
    TrimStartNoWhitespace(s);
    ParseSignedDigits(s, true, -i);
  }

  /** `parseInt` reads the rendering of a non-negative integer back. */
  lemma ParseNonNegative(i: int)
    requires i >= 0
    ensures ParseInt(IntToString(i)) == Some(i)
  {
    var s := IntToString(i);
    assert s == "" + NatToString(i) && '0' <= s[0] <= '9';
    TrimStartNoWhitespace(s);
    ParseSignedDigits(s, false, i);
  }

  /** Round trip: parsing what the quantity field displays gives the quantity back. */
  lemma ParseIntToString(i: int)
    ensures ParseInt(IntToString(i)) == Some(i)
    ensures ParseQuantity(IntToString(i)) == i
  {
    if i < 0 {
      ParseNegative(i);
    } else {
      ParseNonNegative(i);
    }
  }

  /** After the sign, text without a decimal digit has no magnitude: NaN. */
  lemma NoDigitSignedIsNaN(s: string)
    requires forall i :: 0 <= i < |s| ==> !('0' <= s[i] <= '9')
    ensures ParseSigned(s) == None
  {
    var unsigned := if s != [] && (s[0] == '-' || s[0] == '+') then s[1..] else s;
    assert forall i :: 0 <= i < |unsigned| ==> !('0' <= unsigned[i] <= '9');
    if unsigned != [] {
      assert DigitValue(unsigned[0]) >= 10;
    }
    assert ParseMagnitude(unsigned) == None;
  }

  /** Text without a decimal digit is not a number, so the quantity field reads it as 0. */
  lemma NoDigitParsesToZero(text: string)
    requires forall i :: 0 <= i < |text| ==> !('0' <= text[i] <= '9')
    ensures ParseInt(text) == None
    ensures ParseQuantity(text) == 0
  {
    var s := TrimStart(text);
    forall i | 0 <= i < |s| ensures !('0' <= s[i] <= '9') {
      assert s[i] == text[|text| - |s| + i];
    }
    NoDigitSignedIsNaN(s);
  }
}

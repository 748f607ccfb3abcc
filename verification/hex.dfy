/**
 * Decoding of `#RRGGBB` colour strings into integer channels, as done by
 * `hexToRgb` in src/App.js: the six digits are read as one base-16 number
 * and the channels are cut out of it with `>>` and `& 255`.
 *
 * A lower-case encoder is the partner of the decoder: decoding an encoded
 * colour gives the colour back, and encoding a decoded string gives the
 * string in lower case.
 */
module HexColor {

  /** An RGB triple as returned by `hexToRgb`. */
  datatype Rgb = Rgb(r: int, g: int, b: int)

  predicate IsChannel(v: int) {
    0 <= v <= 255
  }

  predicate ValidRgb(c: Rgb) {
    IsChannel(c.r) && IsChannel(c.g) && IsChannel(c.b)
  }

  // ---------------------------------------------------------------------------
  // Hex digits
  // ---------------------------------------------------------------------------

  /** A digit `parseInt(_, 16)` accepts, in either case. */
  predicate IsHexDigit(ch: char) {
    ('0' <= ch <= '9') || ('a' <= ch <= 'f') || ('A' <= ch <= 'F')
  }

  predicate AllHexDigits(s: string) {
    forall i :: 0 <= i < |s| ==> IsHexDigit(s[i])
  }

  function DigitValue(ch: char): (d: nat)
    requires IsHexDigit(ch)
    ensures d < 16
  {
    if '0' <= ch <= '9' then ch as int - '0' as int
    else if 'a' <= ch <= 'f' then ch as int - 'a' as int + 10
    else ch as int - 'A' as int + 10
  }

  /** The lower-case digit of value `d`. */
  function DigitChar(d: nat): (ch: char)
    requires d < 16
    ensures IsHexDigit(ch) && DigitValue(ch) == d
    ensures !('A' <= ch <= 'F')
  {
    if d < 10 then (d + '0' as int) as char else (d - 10 + 'a' as int) as char
  }

  /** Lower-casing of ASCII letters; every other character is kept. */
  function ToLowerChar(ch: char): char {
    if 'A' <= ch <= 'Z' then (ch as int - 'A' as int + 'a' as int) as char else ch
  }

  function ToLower(s: string): (t: string)
    ensures |t| == |s|
    ensures forall i :: 0 <= i < |s| ==> t[i] == ToLowerChar(s[i])
  {
    seq(|s|, i requires 0 <= i < |s| => ToLowerChar(s[i]))
  }

  lemma DigitCharOfValue(ch: char)
    requires IsHexDigit(ch)
    ensures DigitChar(DigitValue(ch)) == ToLowerChar(ch)
  {
  }

  // ---------------------------------------------------------------------------
  // parseInt(_, 16) on a string of hex digits
  // ---------------------------------------------------------------------------

  function Pow16(n: nat): (p: nat)
    ensures p >= 1
  {
    if n == 0 then 1 else 16 * Pow16(n - 1)
  }

  /** The value of a string of hex digits, most significant digit first. */
  function HexValue(s: string): nat
    requires AllHexDigits(s)
  {
    if |s| == 0 then 0 else HexValue(s[..|s| - 1]) * 16 + DigitValue(s[|s| - 1])
  }

  /** `n` hex digits never exceed 16^n - 1. */
  lemma {:induction false} HexValueBound(s: string)
    requires AllHexDigits(s)
    ensures HexValue(s) < Pow16(|s|)
  {
    if |s| > 0 {
      HexValueBound(s[..|s| - 1]);
    }
  }

  lemma ShiftAdd(va: int, pb: int, vb: int, d: int)
    ensures (va * pb + vb) * 16 + d == va * (16 * pb) + (vb * 16 + d)
  {
  }

  /** Reading `a + b` is reading `a`, shifting it by `|b|` digits and adding `b`. */
  lemma {:induction false} HexValueAppend(a: string, b: string)
    requires AllHexDigits(a) && AllHexDigits(b)
    ensures AllHexDigits(a + b)
    ensures HexValue(a + b) == HexValue(a) * Pow16(|b|) + HexValue(b)
  {
    assert AllHexDigits(a + b) by {
      forall i | 0 <= i < |a + b|
        ensures IsHexDigit((a + b)[i])
      {
        if i < |a| { assert (a + b)[i] == a[i]; } else { assert (a + b)[i] == b[i - |a|]; }
      }
    }
    if |b| > 0 {
      var b' := b[..|b| - 1];
      var last := b[|b| - 1];
      assert (a + b)[..|a + b| - 1] == a + b';
      assert (a + b)[|a + b| - 1] == last;
      HexValueAppend(a, b');
      assert HexValue(a + b) == HexValue(a + b') * 16 + DigitValue(last);
      assert HexValue(b) == HexValue(b') * 16 + DigitValue(last);
      ShiftAdd(HexValue(a), Pow16(|b'|), HexValue(b'), DigitValue(last));
    } else {
      assert a + b == a;
    }
  }

  lemma HexValuePair(x: char, y: char)
    requires IsHexDigit(x) && IsHexDigit(y)
    ensures AllHexDigits([x, y])
    ensures HexValue([x, y]) == DigitValue(x) * 16 + DigitValue(y)
  {
    assert [x, y][..1] == [x];
    assert [x][..0] == [];
    assert HexValue([x]) == DigitValue(x);
  }

  // ---------------------------------------------------------------------------
  // The shift-and-mask decoding
  // ---------------------------------------------------------------------------

  /** `#` followed by exactly six hex digits: what the colour widget and the palettes supply. */
  predicate WellFormedHex(hex: string) {
    |hex| == 7 && hex[0] == '#' && AllHexDigits(hex[1..])
  }

  /**
   * JavaScript `v >> 16` and `v >> 8`. For every 32-bit integer an
   * arithmetic right shift by k is floor division by 2^k, which is
   * Dafny's `/` for a positive divisor.
   */
  function ShiftRight(v: int, k: nat): int
    requires k == 8 || k == 16
  {
    if k == 8 then v / 256 else v / 65536
  }

  /** JavaScript `v & 255`: the low eight bits of the two's complement, i.e. `v mod 256`. */
  function Mask255(v: int): int {
    v % 256
  }

  /** Cutting a 24-bit value into its three bytes and putting them back together. */
  lemma SplitBytes(v: int)
    requires 0 <= v < 16777216
    ensures Mask255(ShiftRight(v, 16)) * 65536 + Mask255(ShiftRight(v, 8)) * 256 + Mask255(v) == v
  {
    var q := v / 256;
    assert v == q * 256 + v % 256;
    assert q / 256 == v / 65536;
    assert q == (q / 256) * 256 + q % 256;
  }

  /** The bytes of `r * 65536 + g * 256 + b` are `r`, `g` and `b`. */
  lemma JoinBytes(r: int, g: int, b: int)
    requires IsChannel(r) && IsChannel(g) && IsChannel(b)
    ensures var v := r * 65536 + g * 256 + b;
      Mask255(ShiftRight(v, 16)) == r && Mask255(ShiftRight(v, 8)) == g && Mask255(v) == b
  {
    var v := r * 65536 + g * 256 + b;
    assert v / 65536 == r;
    assert v / 256 == r * 256 + g;
    assert v % 256 == b;
  }

  /** The default text and background colours are well formed. */
  lemma BlackAndWhiteWellFormed()
    ensures WellFormedHex("#000000") && WellFormedHex("#ffffff")
  {
    assert "#000000"[1..] == "000000";
    assert "#ffffff"[1..] == "ffffff";
  }

  /** `hexToRgb`: parse the six digits and cut the channels out with shifts and masks. */
  function HexToRgb(hex: string): (c: Rgb)
    requires WellFormedHex(hex)
    ensures ValidRgb(c)
    ensures c.r * 65536 + c.g * 256 + c.b == HexValue(hex[1..])
  {
    var v := HexValue(hex[1..]);
    HexValueBound(hex[1..]);
    assert Pow16(6) == 16777216;
    SplitBytes(v);
    Rgb(Mask255(ShiftRight(v, 16)), Mask255(ShiftRight(v, 8)), Mask255(v))
  }

  // ---------------------------------------------------------------------------
  // The lower-case encoder and the round trips
  // ---------------------------------------------------------------------------

  function ByteToHex(v: int): (s: string)
    requires IsChannel(v)
    ensures |s| == 2 && AllHexDigits(s) && HexValue(s) == v
  {
    HexValuePair(DigitChar(v / 16), DigitChar(v % 16));
    [DigitChar(v / 16), DigitChar(v % 16)]
  }

  /** The `#rrggbb` spelling of a colour, as the colour widget reports it. */
  function RgbToHex(c: Rgb): (hex: string)
    requires ValidRgb(c)
    ensures WellFormedHex(hex)
    ensures forall i :: 1 <= i < 7 ==> !('A' <= hex[i] <= 'F')
  {
    var digits := ByteToHex(c.r) + ByteToHex(c.g) + ByteToHex(c.b);
    assert AllHexDigits(digits);
    ['#'] + digits
  }

  /** Decoding an encoded colour gives the colour back. */
  lemma DecodeEncode(c: Rgb)
    requires ValidRgb(c)
    ensures HexToRgb(RgbToHex(c)) == c
  {
    var hex := RgbToHex(c);
    var x, y, z := ByteToHex(c.r), ByteToHex(c.g), ByteToHex(c.b);
    assert hex[1..] == (x + y) + z;
    HexValueAppend(x, y);
    HexValueAppend(x + y, z);
    assert Pow16(2) == 256;
    assert HexValue(hex[1..]) == c.r * 65536 + c.g * 256 + c.b;
    JoinBytes(c.r, c.g, c.b);
  }

  /** The channels `hexToRgb` cuts out are the values of the three digit pairs. */
  lemma DecodeDigitPairs(hex: string)
    requires WellFormedHex(hex)
    ensures AllHexDigits(hex[1..3]) && AllHexDigits(hex[3..5]) && AllHexDigits(hex[5..])
    ensures HexToRgb(hex) == Rgb(HexValue(hex[1..3]), HexValue(hex[3..5]), HexValue(hex[5..]))
  {
    var s := hex[1..];
    var x, y, z := hex[1..3], hex[3..5], hex[5..];
    assert s == (x + y) + z;
    HexValueBound(x);
    HexValueBound(y);
    HexValueBound(z);
    assert Pow16(2) == 256;
    HexValueAppend(x, y);
    HexValueAppend(x + y, z);
    JoinBytes(HexValue(x), HexValue(y), HexValue(z));
  }

  /** Re-encoding the value of a digit pair spells the pair in lower case. */
  lemma ByteToHexOfPair(x: char, y: char)
    requires IsHexDigit(x) && IsHexDigit(y)
    ensures AllHexDigits([x, y])
    ensures HexValue([x, y]) == DigitValue(x) * 16 + DigitValue(y)
    ensures ByteToHex(HexValue([x, y])) == [ToLowerChar(x), ToLowerChar(y)]
  {
    HexValuePair(x, y);
    var v := HexValue([x, y]);
    assert v / 16 == DigitValue(x) && v % 16 == DigitValue(y);
    DigitCharOfValue(x);
    DigitCharOfValue(y);
  }

  /** Encoding a decoded string gives the string back in lower case. */
  lemma EncodeDecode(hex: string)
    requires WellFormedHex(hex)
    ensures RgbToHex(HexToRgb(hex)) == ToLower(hex)
  {
    DecodeDigitPairs(hex);
    assert hex[1..3] == [hex[1], hex[2]];
    assert hex[3..5] == [hex[3], hex[4]];
    assert hex[5..] == [hex[5], hex[6]];
    assert IsHexDigit(hex[1]) && IsHexDigit(hex[2]) by { assert hex[1..][0] == hex[1] && hex[1..][1] == hex[2]; }
    assert IsHexDigit(hex[3]) && IsHexDigit(hex[4]) by { assert hex[1..][2] == hex[3] && hex[1..][3] == hex[4]; }
    assert IsHexDigit(hex[5]) && IsHexDigit(hex[6]) by { assert hex[1..][4] == hex[5] && hex[1..][5] == hex[6]; }
    ByteToHexOfPair(hex[1], hex[2]);
    ByteToHexOfPair(hex[3], hex[4]);
    ByteToHexOfPair(hex[5], hex[6]);
    var t := RgbToHex(HexToRgb(hex));
    var lower := ToLower(hex);
    assert t == ['#'] + [lower[1], lower[2]] + [lower[3], lower[4]] + [lower[5], lower[6]];
  }
}

/**
 * Relative luminance and contrast ratio as defined by WCAG 2.x
 * (`getLuminance` and `getContrastRatio` in src/App.js), over exact reals.
 *
 * The one step that cannot be computed exactly, `Math.pow(x, 2.4)`, is a
 * parameter of type `Gamma`: any function that maps [0,1] into [0,1] and
 * maps 1 to 1. Every fact proved here holds for every such function.
 */
module Wcag {
  import opened HexColor

  /** The facts about `x => Math.pow(x, 2.4)` that the model relies on. */
  ghost predicate IsGamma(pow: real -> real) {
    && pow(1.0) == 1.0
    && forall x :: 0.0 <= x <= 1.0 ==> 0.0 <= pow(x) <= 1.0
  }

  type Gamma = pow: real -> real | IsGamma(pow) witness (x: real) => x

  predicate InUnit(x: real) {
    0.0 <= x <= 1.0
  }

  /** A channel value scaled from 0..255 to the unit interval (`r / 255`). */
  function Normalize(channel: int): (x: real)
    requires IsChannel(channel)
    ensures InUnit(x)
    ensures x == 0.0 <==> channel == 0
    ensures x == 1.0 <==> channel == 255
  {
    channel as real / 255.0
  }

  /** `linearize`: undo the sRGB transfer curve of one normalized channel. */
  function Linearize(pow: Gamma, c: real): (l: real)
    requires InUnit(c)
    ensures InUnit(l)
    ensures c == 0.0 ==> l == 0.0
    ensures c == 1.0 ==> l == 1.0
    ensures c <= 0.03928 ==> l <= c
  {
    if c <= 0.03928 then c / 12.92 else pow((c + 0.055) / 1.055)
  }

  /** The weighted sum of linear channels; the weights add up to one. */
  function Weighted(rLin: real, gLin: real, bLin: real): real {
    0.2126 * rLin + 0.7152 * gLin + 0.0722 * bLin
  }

  /** A weighted sum of unit values is a unit value: 0 when all are 0, 1 when all are 1. */
  lemma WeightedInUnit(rLin: real, gLin: real, bLin: real)
    requires InUnit(rLin) && InUnit(gLin) && InUnit(bLin)
    ensures InUnit(Weighted(rLin, gLin, bLin))
    ensures Weighted(0.0, 0.0, 0.0) == 0.0 && Weighted(1.0, 1.0, 1.0) == 1.0
  {
  }

  /** Luminance never decreases when one linear channel grows. */
  lemma WeightedMonotonic(rLin: real, gLin: real, bLin: real, rLin': real, gLin': real, bLin': real)
    requires rLin <= rLin' && gLin <= gLin' && bLin <= bLin'
    ensures Weighted(rLin, gLin, bLin) <= Weighted(rLin', gLin', bLin')
  {
  }

  /** `getLuminance`: the relative luminance of a decoded colour. */
  function Luminance(pow: Gamma, c: Rgb): (lum: real)
    requires ValidRgb(c)
    ensures InUnit(lum)
  {
    var rLin := Linearize(pow, Normalize(c.r));
    var gLin := Linearize(pow, Normalize(c.g));
    var bLin := Linearize(pow, Normalize(c.b));
    WeightedInUnit(rLin, gLin, bLin);
    Weighted(rLin, gLin, bLin)
  }

  /** Black has luminance 0 (through the `/ 12.92` branch) and white has luminance 1. */
  lemma LuminanceExtremes(pow: Gamma)
    ensures Luminance(pow, Rgb(0, 0, 0)) == 0.0
    ensures Luminance(pow, Rgb(255, 255, 255)) == 1.0
  {
    assert Linearize(pow, Normalize(0)) == 0.0;
    assert Linearize(pow, Normalize(255)) == 1.0;
  }

  function Max(a: real, b: real): real {
    if a >= b then a else b
  }

  function Min(a: real, b: real): real {
    if a >= b then b else a
  }

  /**
   * The ratio of the lighter to the darker luminance, each offset by 0.05.
   * It is at least 1, it is 1 exactly for equal luminances, and it is at
   * most 21 for luminances in the unit interval.
   */
  function Ratio(lum1: real, lum2: real): (ratio: real)
    requires 0.0 <= lum1 && 0.0 <= lum2
    ensures ratio >= 1.0
    ensures ratio == 1.0 <==> lum1 == lum2
    ensures lum1 <= 1.0 && lum2 <= 1.0 ==> ratio <= 21.0
  {
    var hi, lo := Max(lum1, lum2) + 0.05, Min(lum1, lum2) + 0.05;
    RatioFacts(hi, lo);
    hi / lo
  }

  lemma RatioFacts(hi: real, lo: real)
    requires 0.05 <= lo <= hi
    ensures hi / lo >= 1.0
    ensures hi / lo == 1.0 <==> hi == lo
    ensures hi <= 1.05 ==> hi / lo <= 21.0
  {
    var q := hi / lo;
    assert q * lo == hi;
    assert (q - 1.0) * lo == hi - lo;
    if hi <= 1.05 {
      assert (q - 21.0) * lo == hi - 21.0 * lo;
      assert hi - 21.0 * lo <= 0.0;
    }
  }

  /** Swapping the two luminances does not change the ratio. */
  lemma RatioSymmetric(lum1: real, lum2: real)
    requires 0.0 <= lum1 && 0.0 <= lum2
    ensures Ratio(lum1, lum2) == Ratio(lum2, lum1)
  {
  }

  /** `getContrastRatio` on two well-formed hex colours. */
  function ContrastRatio(pow: Gamma, hex1: string, hex2: string): (ratio: real)
    requires WellFormedHex(hex1) && WellFormedHex(hex2)
    ensures 1.0 <= ratio <= 21.0
    ensures HexToRgb(hex1) == HexToRgb(hex2) ==> ratio == 1.0
  {
    Ratio(Luminance(pow, HexToRgb(hex1)), Luminance(pow, HexToRgb(hex2)))
  }

  /** The contrast of a pair of colours does not depend on which one is the text. */
  lemma ContrastSymmetric(pow: Gamma, hex1: string, hex2: string)
    requires WellFormedHex(hex1) && WellFormedHex(hex2)
    ensures ContrastRatio(pow, hex1, hex2) == ContrastRatio(pow, hex2, hex1)
  {
    RatioSymmetric(Luminance(pow, HexToRgb(hex1)), Luminance(pow, HexToRgb(hex2)));
  }

  /** Black on white (either way round) reaches the maximum ratio 21, whatever the curve. */
  lemma BlackWhiteContrast(pow: Gamma)
    ensures WellFormedHex("#000000") && WellFormedHex("#ffffff")
    ensures ContrastRatio(pow, "#000000", "#ffffff") == 21.0
    ensures ContrastRatio(pow, "#ffffff", "#000000") == 21.0
  {
    BlackAndWhiteWellFormed();
    assert HexToRgb("#000000") == Rgb(0, 0, 0) by {
      DecodeEncode(Rgb(0, 0, 0));
      assert RgbToHex(Rgb(0, 0, 0)) == "#000000";
    }
    assert HexToRgb("#ffffff") == Rgb(255, 255, 255) by {
      DecodeEncode(Rgb(255, 255, 255));
      assert RgbToHex(Rgb(255, 255, 255)) == "#ffffff";
    }
    LuminanceExtremes(pow);
    assert Ratio(0.0, 1.0) == 21.0;
    assert Ratio(1.0, 0.0) == 21.0;
  }
}

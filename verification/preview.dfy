/**
 * The style parameters `updateLivePreview` (src/App.js) derives for the
 * preview box: the font size chosen by text type and the CSS filter chosen
 * by colour-blindness mode and severity. Filters are kept as structured
 * parameter records; turning the numbers into CSS text is not modelled.
 */
module Preview {

  /**
   * The CSS filter of the preview box. `Tinted` is the
   * `contrast(..) saturate(..) hue-rotate(..deg)` chain of the three
   * anomaly modes; `Grayscale` is the `grayscale(..%) contrast(..%)` chain
   * of monochromacy, with both values in percent.
   */
  datatype Filter =
    | NoFilter
    | Tinted(contrast: real, saturate: real, hueRotateDeg: real)
    | Grayscale(grayscalePct: real, contrastPct: real)

  /** The mode tags the simulation dropdown offers besides `none`. */
  predicate IsSimulationMode(mode: string) {
    mode == "deuteranomaly" || mode == "protanomaly" || mode == "tritanomaly" || mode == "monochromacy"
  }

  /** `severity / 100`. */
  function Strength(severity: int): real {
    severity as real / 100.0
  }

  /**
   * The filter for a mode tag at a severity. `none` and any tag the switch
   * does not know leave the filter empty.
   */
  function FilterFor(mode: string, severity: int): (f: Filter)
    ensures f == NoFilter <==> !IsSimulationMode(mode)
    ensures mode == "monochromacy" <==> f.Grayscale?
  {
    var s := Strength(severity);
    if mode == "none" then NoFilter
    else if mode == "deuteranomaly" then Tinted(1.0 + 0.4 * s, 0.6 + 0.4 * s, 90.0 * s)
    else if mode == "protanomaly" then Tinted(1.0 + 0.4 * s, 0.5 + 0.5 * s, 60.0 * s)
    else if mode == "tritanomaly" then Tinted(1.0 + 0.4 * s, 0.6 + 0.4 * s, 180.0 * s)
    else if mode == "monochromacy" then Grayscale(100.0 * s, 100.0 + 50.0 * s)
    else NoFilter
  }

  function Lerp(a: real, b: real, t: real): real {
    a + t * (b - a)
  }

  /** Componentwise interpolation between two filters of the same shape. */
  function Interpolate(f0: Filter, f1: Filter, t: real): Filter {
    match (f0, f1)
    case (Tinted(c0, s0, h0), Tinted(c1, s1, h1)) =>
      Tinted(Lerp(c0, c1, t), Lerp(s0, s1, t), Lerp(h0, h1, t))
    case (Grayscale(g0, c0), Grayscale(g1, c1)) =>
      Grayscale(Lerp(g0, g1, t), Lerp(c0, c1, t))
    case _ => f0
  }

  /** The parameters of each mode at severity 0 and at severity 100. */
  lemma FilterEndPoints()
    ensures FilterFor("deuteranomaly", 0) == Tinted(1.0, 0.6, 0.0)
    ensures FilterFor("deuteranomaly", 100) == Tinted(1.4, 1.0, 90.0)
    ensures FilterFor("protanomaly", 0) == Tinted(1.0, 0.5, 0.0)
    ensures FilterFor("protanomaly", 100) == Tinted(1.4, 1.0, 60.0)
    ensures FilterFor("tritanomaly", 0) == Tinted(1.0, 0.6, 0.0)
    ensures FilterFor("tritanomaly", 100) == Tinted(1.4, 1.0, 180.0)
    ensures FilterFor("monochromacy", 0) == Grayscale(0.0, 100.0)
    ensures FilterFor("monochromacy", 100) == Grayscale(100.0, 150.0)
  {
  }

  /**
   * Every filter parameter is affine in `severity / 100`: the filter at any
   * severity is the interpolation between the filters at 0 and at 100.
   */
  lemma FilterIsAffine(mode: string, severity: int)
    ensures FilterFor(mode, severity)
         == Interpolate(FilterFor(mode, 0), FilterFor(mode, 100), Strength(severity))
  {
  }

  /** Every parameter of `f` lies between the same parameter of `lo` and of `hi`, and all three have one shape. */
  predicate Between(lo: Filter, f: Filter, hi: Filter) {
    match (lo, f, hi)
    case (NoFilter, NoFilter, NoFilter) => true
    case (Tinted(c0, s0, h0), Tinted(c, s, h), Tinted(c1, s1, h1)) =>
      c0 <= c <= c1 && s0 <= s <= s1 && h0 <= h <= h1
    case (Grayscale(g0, k0), Grayscale(g, k), Grayscale(g1, k1)) =>
      g0 <= g <= g1 && k0 <= k <= k1
    case _ => false
  }

  /** Within the slider's range each parameter stays between its own mode's values at 0 and at 100. */
  lemma FilterBounds(mode: string, severity: int)
    requires 0 <= severity <= 100
    ensures Between(FilterFor(mode, 0), FilterFor(mode, severity), FilterFor(mode, 100))
  {
  }

  /** A stronger severity never weakens any parameter. */
  lemma FilterMonotonic(mode: string, severity: int, severity': int)
    requires severity <= severity'
    ensures var f, f' := FilterFor(mode, severity), FilterFor(mode, severity');
      && (f.Tinted? ==> f.contrast <= f'.contrast && f.saturate <= f'.saturate && f.hueRotateDeg <= f'.hueRotateDeg)
      && (f.Grayscale? ==> f.grayscalePct <= f'.grayscalePct && f.contrastPct <= f'.contrastPct)
  {
  }

  /** The font size in pixels for a text type tag; unknown tags keep the 16px default. */
  function FontSizePx(textType: string): (px: int)
    ensures px in {16, 24, 32}
    ensures px == 16 <==> textType != "large" && textType != "heading"
  {
    match textType
    case "normal" => 16
    case "large" => 24
    case "heading" => 32
    case _ => 16
  }

  /** The three text types get strictly growing sizes. */
  lemma FontSizeOrdered()
    ensures FontSizePx("normal") < FontSizePx("large") < FontSizePx("heading")
  {
  }
}

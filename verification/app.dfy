/**
 * The state of the `App` component of src/App.js and the user actions on
 * it, lifted out of React: every action is one atomic step on an
 * immutable `State`, followed by the contrast effect (`Settle`) that the
 * component runs when the colours or the text type change.
 */
module App {
  import opened HexColor
  import opened Wcag
  import opened Preview

  datatype Option<T> = None | Some(value: T)

  /**
   * The component's state hooks. `contrastRatio` starts as `null`
   * (`None`) and is filled in by the contrast effect.
   */
  datatype State = State(
    color1: string,          // text colour
    color2: string,          // background colour
    textType: string,
    colorBlindSim: string,
    severity: int,
    customText: string,
    contrastRatio: Option<real>,
    requiredContrast: real)

  /** The `maxLength` of the preview text field. */
  const MaxTextLength: nat := 60

  /** The states the component can be in once its widgets have been used. */
  predicate Valid(s: State) {
    && WellFormedHex(s.color1)
    && WellFormedHex(s.color2)
    && 0 <= s.severity <= 100
    && |s.customText| <= MaxTextLength
    && (s.requiredContrast == 4.5 || s.requiredContrast == 3.0)
    && (s.contrastRatio.Some? ==> 1.0 <= s.contrastRatio.value <= 21.0)
  }

  /** The initial values of the state hooks. */
  function Initial(): (s: State)
    ensures Valid(s)
    ensures s.contrastRatio == None
  {
    BlackAndWhiteWellFormed();
    State("#000000", "#ffffff", "normal", "none", 50, "This is a preview text", None, 4.5)
  }

  // ---------------------------------------------------------------------------
  // Threshold and verdict
  // ---------------------------------------------------------------------------

  predicate IsTextType(textType: string) {
    textType == "normal" || textType == "large" || textType == "heading"
  }

  /**
   * The contrast WCAG requires for a text type: 4.5 for body text, 3.0 for
   * the two heading sizes. A tag the effect does not know leaves the
   * previous requirement in place.
   */
  function RequiredContrast(textType: string, previous: real): (required: real)
    ensures IsTextType(textType) ==> (required == 3.0 <==> textType != "normal")
    ensures IsTextType(textType) ==> (required == 4.5 <==> textType == "normal")
    ensures !IsTextType(textType) ==> required == previous
  {
    if textType == "normal" then 4.5
    else if textType == "large" || textType == "heading" then 3.0
    else previous
  }

  /**
   * WCAG's "large scale" text is at least 18pt, i.e. 24px: the lower
   * threshold applies exactly to the text types rendered at 24px or more.
   */
  lemma RequiredContrastMatchesFontSize(textType: string, previous: real)
    requires IsTextType(textType)
    ensures RequiredContrast(textType, previous) == (if FontSizePx(textType) >= 24 then 3.0 else 4.5)
  {
  }

  /** Setting the requirement twice for the same text type is setting it once. */
  lemma RequiredContrastIdempotent(textType: string, previous: real)
    ensures RequiredContrast(textType, RequiredContrast(textType, previous))
         == RequiredContrast(textType, previous)
  {
  }

  /** The text under the ratio: nothing while the ratio is unset, else pass or fail. */
  datatype Verdict = NoVerdict | Passes | Fails

  /** JavaScript truthiness of the `contrastRatio` hook: not `null` and not 0. */
  predicate Truthy(ratio: Option<real>) {
    ratio.Some? && ratio.value != 0.0
  }

  /** The verdict shown under the ratio; the comparison is inclusive. */
  function VerdictOf(ratio: Option<real>, required: real): (v: Verdict)
    ensures v == NoVerdict <==> !Truthy(ratio)
    ensures v == Passes <==> Truthy(ratio) && ratio.value >= required
  {
    if !Truthy(ratio) then NoVerdict
    else if ratio.value >= required then Passes
    else Fails
  }

  /** A ratio exactly at the threshold passes: 4.5 for body text, 3.0 for headings. */
  lemma BoundaryPasses(previous: real)
    ensures VerdictOf(Some(4.5), RequiredContrast("normal", previous)) == Passes
    ensures VerdictOf(Some(3.0), RequiredContrast("large", previous)) == Passes
    ensures VerdictOf(Some(3.0), RequiredContrast("heading", previous)) == Passes
    ensures VerdictOf(Some(3.0), RequiredContrast("normal", previous)) == Fails
  {
  }

  /** A pair that passes for body text passes for both heading sizes. */
  lemma NormalPassImpliesLargePass(ratio: real, previous: real)
    requires VerdictOf(Some(ratio), RequiredContrast("normal", previous)) == Passes
    ensures VerdictOf(Some(ratio), RequiredContrast("large", previous)) == Passes
    ensures VerdictOf(Some(ratio), RequiredContrast("heading", previous)) == Passes
  {
  }

  // ---------------------------------------------------------------------------
  // The contrast effect
  // ---------------------------------------------------------------------------

  /**
   * The effect keyed on `[color1, color2, textType]`: store the contrast
   * ratio of the two colours and adjust the required contrast.
   */
  function Settle(pow: Gamma, s: State): (t: State)
    requires Valid(s)
    ensures Valid(t)
    ensures Truthy(t.contrastRatio)
    ensures t.contrastRatio == Some(ContrastRatio(pow, s.color1, s.color2))
    ensures t.requiredContrast == RequiredContrast(s.textType, s.requiredContrast)
    ensures t.(contrastRatio := s.contrastRatio, requiredContrast := s.requiredContrast) == s
  {
    s.(contrastRatio := Some(ContrastRatio(pow, s.color1, s.color2)),
       requiredContrast := RequiredContrast(s.textType, s.requiredContrast))
  }

  /**
   * Running the effect again when none of its inputs changed changes
   * nothing, so running it after every action is the same as running it
   * only when `color1`, `color2` or `textType` changed.
   */
  lemma SettleIdempotent(pow: Gamma, s: State)
    requires Valid(s)
    ensures Settle(pow, Settle(pow, s)) == Settle(pow, s)
  {
    RequiredContrastIdempotent(s.textType, s.requiredContrast);
  }

  /**
   * An action that leaves `color1`, `color2` and `textType` alone does not
   * trigger the effect in the component; in the model the effect runs but
   * changes nothing. So running it after every action agrees with running
   * it only when one of its inputs changed.
   */
  lemma SettleAfterUnrelatedAction(pow: Gamma, s: State, a: Action)
    requires Valid(s) && Admissible(a)
    ensures var t := Apply(Settle(pow, s), a);
      t.color1 == s.color1 && t.color2 == s.color2 && t.textType == s.textType ==> Settle(pow, t) == t
  {
    RequiredContrastIdempotent(s.textType, s.requiredContrast);
  }

  /** The verdict once the effect has run. */
  function CurrentVerdict(pow: Gamma, s: State): (v: Verdict)
    requires Valid(s)
    ensures v != NoVerdict
    ensures v == Passes <==> ContrastRatio(pow, s.color1, s.color2) >= RequiredContrast(s.textType, s.requiredContrast)
  {
    var t := Settle(pow, s);
    VerdictOf(t.contrastRatio, t.requiredContrast)
  }

  /** On first render, black on white body text has ratio 21 and passes. */
  lemma InitialVerdict(pow: Gamma)
    ensures Settle(pow, Initial()).contrastRatio == Some(21.0)
    ensures Settle(pow, Initial()).requiredContrast == 4.5
    ensures CurrentVerdict(pow, Initial()) == Passes
  {
    BlackWhiteContrast(pow);
  }

  // ---------------------------------------------------------------------------
  // Actions
  // ---------------------------------------------------------------------------

  /** An entry of the built-in palette table. */
  datatype Palette = Palette(name: string, colors: seq<string>)

  /** What `selectPalette` reads from a palette: two well-formed colours. */
  predicate UsablePalette(p: Palette) {
    |p.colors| >= 2 && WellFormedHex(p.colors[0]) && WellFormedHex(p.colors[1])
  }

  const PresetPalettes: seq<Palette> := [
    Palette("Ocean Breeze", ["#A8DADC", "#1D3557"]),
    Palette("Sunset Glow", ["#FFDB4D", "#A93319"]),
    Palette("Misty Forest", ["#EDEDED", "#005223"]),
    Palette("Purple Haze", ["#FFF0FC", "#8E44AD"])
  ]

  /** Every built-in palette has a distinct name and exactly two well-formed colours. */
  lemma PresetPalettesUsable()
    ensures forall i :: 0 <= i < |PresetPalettes| ==>
      UsablePalette(PresetPalettes[i]) && |PresetPalettes[i].colors| == 2
    ensures forall i, j :: 0 <= i < j < |PresetPalettes| ==> PresetPalettes[i].name != PresetPalettes[j].name
  {
    assert "#A8DADC"[1..] == "A8DADC" && "#1D3557"[1..] == "1D3557";
    assert "#FFDB4D"[1..] == "FFDB4D" && "#A93319"[1..] == "A93319";
    assert "#EDEDED"[1..] == "EDEDED" && "#005223"[1..] == "005223";
    assert "#FFF0FC"[1..] == "FFF0FC" && "#8E44AD"[1..] == "8E44AD";
  }

  /** `swapColors`: exchange text and background colour in one step. */
  function SwapColors(s: State): (t: State)
    ensures t.color1 == s.color2 && t.color2 == s.color1
    ensures t.(color1 := s.color1, color2 := s.color2) == s
  {
    s.(color1 := s.color2, color2 := s.color1)
  }

  /** `selectPalette`: take the palette's first colour as text and its second as background. */
  function SelectPalette(s: State, p: Palette): (t: State)
    requires UsablePalette(p)
    ensures t.color1 == p.colors[0] && t.color2 == p.colors[1]
    ensures t.(color1 := s.color1, color2 := s.color2) == s
  {
    s.(color1 := p.colors[0], color2 := p.colors[1])
  }

  /** `resetDefaults`: the six settings get their initial values back. */
  function ResetDefaults(s: State): (t: State)
    ensures t.contrastRatio == s.contrastRatio && t.requiredContrast == s.requiredContrast
    ensures t.(contrastRatio := Initial().contrastRatio, requiredContrast := Initial().requiredContrast) == Initial()
  {
    s.(color1 := "#000000", color2 := "#ffffff", textType := "normal",
       colorBlindSim := "none", severity := 50, customText := "This is a preview text")
  }

  /** After the effect, a reset state is exactly the first-render state. */
  lemma ResetRestoresInitial(pow: Gamma, s: State)
    requires Valid(s)
    ensures Settle(pow, ResetDefaults(s)) == Settle(pow, Initial())
  {
  }

  /** Swapping keeps the ratio, and hence the verdict, of the pair. */
  lemma SwapKeepsVerdict(pow: Gamma, s: State)
    requires Valid(s)
    ensures Valid(SwapColors(s))
    ensures Settle(pow, SwapColors(s)).contrastRatio == Settle(pow, s).contrastRatio
    ensures CurrentVerdict(pow, SwapColors(s)) == CurrentVerdict(pow, s)
  {
    ContrastSymmetric(pow, s.color1, s.color2);
  }

  /** Swapping twice gives the original state back. */
  lemma SwapInvolution(s: State)
    ensures SwapColors(SwapColors(s)) == s
  {
  }

  /** The user actions the component offers. */
  datatype Action =
    | PickTextColor(hex: string)
    | PickBackgroundColor(hex: string)
    | ChooseTextType(tag: string)
    | ChooseSimulation(tag: string)
    | SlideSeverity(value: int)
    | EditPreviewText(text: string)
    | Swap
    | ChoosePalette(palette: Palette)
    | Reset

  /**
   * What the widgets can deliver: a colour input yields `#rrggbb`, the
   * slider 0..100, the text field at most 60 characters, and the palette
   * buttons one entry of the preset table.
   */
  predicate Admissible(a: Action) {
    match a
    case PickTextColor(hex) => WellFormedHex(hex)
    case PickBackgroundColor(hex) => WellFormedHex(hex)
    case SlideSeverity(value) => 0 <= value <= 100
    case EditPreviewText(text) => |text| <= MaxTextLength
    case ChoosePalette(p) => p in PresetPalettes
    case _ => true
  }

  /** The state setters an action calls. */
  function Apply(s: State, a: Action): (t: State)
    requires Valid(s) && Admissible(a)
    ensures Valid(t)
    ensures t.contrastRatio == s.contrastRatio && t.requiredContrast == s.requiredContrast
    ensures a.PickTextColor? ==> t == s.(color1 := a.hex)
    ensures a.PickBackgroundColor? ==> t == s.(color2 := a.hex)
    ensures a.ChooseTextType? ==> t == s.(textType := a.tag)
    ensures a.ChooseSimulation? ==> t == s.(colorBlindSim := a.tag)
    ensures a.SlideSeverity? ==> t == s.(severity := a.value)
    ensures a.EditPreviewText? ==> t == s.(customText := a.text)
    ensures a.Swap? ==> t == SwapColors(s)
    ensures a.ChoosePalette? ==> t == s.(color1 := a.palette.colors[0], color2 := a.palette.colors[1])
    ensures a.Reset? ==> t == ResetDefaults(s)
  {
    match a
    case PickTextColor(hex) => s.(color1 := hex)
    case PickBackgroundColor(hex) => s.(color2 := hex)
    case ChooseTextType(tag) => s.(textType := tag)
    case ChooseSimulation(tag) => s.(colorBlindSim := tag)
    case SlideSeverity(value) => s.(severity := value)
    case EditPreviewText(text) => s.(customText := text)
    case Swap => SwapColors(s)
    case ChoosePalette(p) => PresetPalettesUsable(); SelectPalette(s, p)
    case Reset => BlackAndWhiteWellFormed(); ResetDefaults(s)
  }

  /** One user action followed by the contrast effect. */
  function Step(pow: Gamma, s: State, a: Action): (t: State)
    requires Valid(s) && Admissible(a)
    ensures Valid(t)
    ensures VerdictOf(t.contrastRatio, t.requiredContrast) != NoVerdict
  {
    Settle(pow, Apply(s, a))
  }

  /** A session: a sequence of admissible actions from a valid state keeps the state valid. */
  function Run(pow: Gamma, s: State, actions: seq<Action>): (t: State)
    requires Valid(s)
    requires forall i :: 0 <= i < |actions| ==> Admissible(actions[i])
    ensures Valid(t)
    ensures |actions| > 0 ==> Truthy(t.contrastRatio)
    decreases |actions|
  {
    if |actions| == 0 then s
    else Run(pow, Step(pow, s, actions[0]), actions[1..])
  }

  // ---------------------------------------------------------------------------
  // Derived output
  // ---------------------------------------------------------------------------

  /** The style `updateLivePreview` writes to the preview box. */
  datatype PreviewStyle = PreviewStyle(color: string, backgroundColor: string, filter: Filter, fontSizePx: int)

  function LivePreview(s: State): (p: PreviewStyle)
    ensures p.color == s.color1 && p.backgroundColor == s.color2
    ensures p.filter == FilterFor(s.colorBlindSim, s.severity)
    ensures p.fontSizePx == FontSizePx(s.textType)
    ensures p.filter == NoFilter <==> !IsSimulationMode(s.colorBlindSim)
  {
    PreviewStyle(s.color1, s.color2, FilterFor(s.colorBlindSim, s.severity), FontSizePx(s.textType))
  }

  /**
   * The preview depends on colours, text type, mode and severity only: the
   * preview text (listed among the effect's dependencies) and the contrast
   * effect's outputs do not change it.
   */
  lemma PreviewIndependence(pow: Gamma, s: State, text: string)
    requires Valid(s)
    ensures LivePreview(s.(customText := text)) == LivePreview(s)
    ensures LivePreview(Settle(pow, s)) == LivePreview(s)
  {
  }

  /** The text `copyHexCodes` hands to the clipboard. */
  function CopyText(s: State): (text: string)
    requires Valid(s)
    ensures |text| == 46
    ensures text[..12] == "Text Color: " && text[19..39] == ", Background Color: "
    ensures text[12..19] == s.color1 && text[39..] == s.color2
  {
    "Text Color: " + s.color1 + ", Background Color: " + s.color2
  }

  /** Reads the two colours back out of a copied text. */
  function CopiedColors(text: string): (colors: (string, string))
    requires |text| == 46
  {
    (text[12..19], text[39..])
  }

  /**
   * The copied text determines both colours: reading them back gives the
   * text and background colours, so two states with different colour
   * pairs never copy the same text.
   */
  lemma CopyTextRoundTrip(s: State, s': State)
    requires Valid(s) && Valid(s')
    ensures CopiedColors(CopyText(s)) == (s.color1, s.color2)
    ensures CopyText(s) == CopyText(s') ==> s.color1 == s'.color1 && s.color2 == s'.color2
  {
  }
}

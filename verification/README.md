# Palette Perception: colour maths and settings, in Dafny

This project models the pure core under the React UI of Palette Perception,
a browser tool that checks a text/background colour pair against the WCAG
2.x contrast requirements and previews it under simulated colour-vision
deficiencies. All of the core is in `src/App.js`:

- `HexColor` (`hex.dfy`): `hexToRgb`. It parses the six digits of `#RRGGBB`
  as one base-16 number and cuts the channels out with `>>` and `& 255`.
  A lower-case encoder (`RgbToHex`) is its partner: decode∘encode is the
  identity, and encode∘decode lower-cases the input.
- `Wcag` (`wcag.dfy`): `linearize`, `getLuminance` and `getContrastRatio`,
  over exact reals. `Math.pow(x, 2.4)` is a parameter `pow` of type `Gamma`.
  `Gamma` admits any function that maps [0,1] into [0,1] and maps 1 to 1,
  and every proof holds for every such function.
- `Preview` (`preview.dfy`): the font size chosen by text type and the
  colour-blindness filter parameters computed in `updateLivePreview`.
- `App` (`app.dfy`): the component's state hooks as an immutable `State`,
  their initial values, the preset palette table, and the actions (colour
  pick, dropdowns, slider, text entry, swap, palette, reset). Each action is
  one atomic step (`Apply`), followed by the contrast effect (`Settle`) that
  stores the ratio and picks the required contrast. The pass/fail verdict
  and the clipboard text are modelled too.

Text types and simulation modes stay string tags, as in the component's
state. That way the branches for an unknown tag are modelled as well: the
previous requirement is kept, no filter is applied, and the font stays 16px.

`hexToRgb` (src/App.js:6-13) validates nothing. Colours reach it only from
the two `<input type="color">` widgets (src/App.js:186, 193), which always
report `#rrggbb`, from the palette table (src/App.js:166-167), and from the
`#000000`/`#ffffff` literals of the initial state (src/App.js:44-45) and of
reset (src/App.js:147-148). So
`HexToRgb` and the colour actions carry a precondition (`#` followed by
exactly six hex digits, either case) instead of an error path.

## Model

| member | source | states |
|---|---|---|
| HexColor.HexToRgb | src/App.js:6-13 | every channel is in 0..255, and r*65536 + g*256 + b equals the parsed six-digit hex value |
| HexColor.HexValueBound | src/App.js:7 | n hex digits parse to less than 16^n, so six digits fit in 24 bits |
| HexColor.HexValueAppend | src/App.js:7 | parsing a concatenation is parsing the prefix, shifted by the suffix length in digits, plus the suffix |
| HexColor.SplitBytes | src/App.js:9-11 | for a 24-bit value, the three shifted-and-masked bytes recombine to the value |
| HexColor.JoinBytes | src/App.js:9-11 | shifting and masking r*65536 + g*256 + b yields exactly r, g and b |
| HexColor.DecodeEncode | src/App.js:6-13 | decoding the lower-case `#rrggbb` spelling of a colour gives the colour back |
| HexColor.EncodeDecode | src/App.js:6-13 | re-encoding a decoded well-formed string gives the input lower-cased |
| Wcag.Normalize | src/App.js:22-24 | a channel divided by 255 lies in [0,1]; it is 0 exactly for channel 0 and 1 exactly for channel 255 |
| Wcag.Linearize | src/App.js:19-20 | the linearized channel lies in [0,1], fixes 0 and 1, and the low branch never exceeds its input |
| Wcag.WeightedInUnit | src/App.js:26 | the coefficients 0.2126, 0.7152 and 0.0722 sum to 1, so the weighted sum of unit values is a unit value |
| Wcag.WeightedMonotonic | src/App.js:26 | luminance is non-decreasing in each linear channel |
| Wcag.Luminance | src/App.js:17-27 | the relative luminance of any decoded colour lies in [0,1] |
| Wcag.LuminanceExtremes | src/App.js:17-27 | black has luminance 0 and white has luminance 1, for every admissible pow |
| Wcag.Ratio | src/App.js:35-39 | (max+0.05)/(min+0.05) is at least 1, equals 1 exactly when the luminances are equal, and is at most 21 for luminances in [0,1] |
| Wcag.RatioFacts | src/App.js:39 | for offsets 0.05 <= lo <= hi, hi/lo is at least 1, is 1 iff hi = lo, and is at most 21 when hi <= 1.05 |
| Wcag.RatioSymmetric | src/App.js:35-36 | exchanging the two luminances leaves the ratio unchanged |
| Wcag.ContrastRatio | src/App.js:31-40 | the contrast ratio of two colours lies in [1,21], and a colour against itself gives 1 |
| Wcag.ContrastSymmetric | src/App.js:31-40 | the ratio does not depend on which colour is the text colour |
| Wcag.BlackWhiteContrast | src/App.js:31-40 | black against white, either way round, has ratio exactly 21 |
| Preview.FilterFor | src/App.js:104-121 | the filter is empty exactly for `none` and for unknown modes, and it is a grayscale chain exactly for monochromacy |
| Preview.FilterEndPoints | src/App.js:106-117 | the parameters at severity 0 and at severity 100 for each mode; monochromacy goes from 0%/100% to 100%/150% |
| Preview.FilterIsAffine | src/App.js:82-117 | at every severity, each mode's filter is the linear interpolation, by severity/100, between its filters at 0 and at 100 |
| Preview.FilterBounds | src/App.js:104-121 | for severities 0..100 the filter has its mode's shape and every parameter lies between that same mode's values at severity 0 and at severity 100 |
| Preview.FilterMonotonic | src/App.js:104-121 | raising the severity never lowers any filter parameter |
| Preview.FontSizePx | src/App.js:85-100 | the font size is 16, 24 or 32px, and it is 16px exactly when the type is neither `large` nor `heading` |
| Preview.FontSizeOrdered | src/App.js:88-100 | body text is smaller than `large`, which is smaller than `heading` |
| App.Initial | src/App.js:44-51 | the initial state satisfies the state invariant and has no contrast ratio yet |
| App.RequiredContrast | src/App.js:70-76 | the requirement is 4.5 for `normal` and 3.0 for `large` or `heading`; any other tag keeps the previous value |
| App.RequiredContrastMatchesFontSize | src/App.js:70-76 | the 3.0 requirement applies to exactly the text types rendered at 24px or more, which is WCAG's large-scale text |
| App.RequiredContrastIdempotent | src/App.js:70-76 | choosing the requirement twice for the same text type gives the same value as choosing it once |
| App.VerdictOf | src/App.js:239-240 | no verdict while the ratio is null or 0; otherwise it passes iff ratio >= requirement (inclusive) |
| App.BoundaryPasses | src/App.js:239-240 | a ratio of exactly 4.5 passes for body text, exactly 3.0 passes for both heading types, and 3.0 fails for body text |
| App.NormalPassImpliesLargePass | src/App.js:239-240 | a ratio that passes for body text also passes for both heading types |
| App.Settle | src/App.js:66-77 | the effect stores the contrast ratio of `color1` and `color2` and the requirement for the text type, keeps the state invariant, always leaves a truthy ratio, and changes nothing else |
| App.SettleIdempotent | src/App.js:66-77 | running the effect again without any input change leaves the state unchanged |
| App.SettleAfterUnrelatedAction | src/App.js:66-77 | once the effect has run, after an action that leaves `color1`, `color2` and `textType` alone (so the effect does not fire), running the effect changes nothing |
| App.CurrentVerdict | src/App.js:236-241 | once the effect has run there is always a verdict, and it passes iff the pair's contrast ratio is at least the requirement |
| App.InitialVerdict | src/App.js:44-51 | on first render black on white has ratio 21, the requirement is 4.5, and the verdict passes |
| App.PresetPalettesUsable | src/App.js:57-62 | every preset palette has a distinct name and exactly two well-formed colours |
| App.SwapColors | src/App.js:156-162 | the text and background colours are exchanged and nothing else changes |
| App.SwapKeepsVerdict | src/App.js:156-162 | swapping keeps the state valid and leaves the contrast ratio and the verdict unchanged |
| App.SwapInvolution | src/App.js:156-162 | swapping twice gives the original state back |
| App.SelectPalette | src/App.js:165-168 | the text colour becomes colors[0], the background becomes colors[1], and nothing else changes |
| App.ResetDefaults | src/App.js:146-153 | all six settings return to exactly their initial values; the ratio and the requirement are left to the effect |
| App.ResetRestoresInitial | src/App.js:146-153 | once the effect has run, a reset state is exactly the first-render state |
| App.Apply | src/App.js:183-294 | each action sets exactly the field its handler sets (text colour, background colour, text type, simulation mode, severity, preview text); swap, palette choice and reset are `SwapColors`, the palette's two colours and `ResetDefaults`; every action the widgets can deliver keeps the state invariant and leaves the effect's outputs alone |
| App.Step | src/App.js:66-77 | an action followed by the effect keeps the invariant and always shows a verdict |
| App.Run | src/App.js:42-51 | any session of widget actions from a valid state keeps the invariant: well-formed colours, severity 0..100, text of at most 60 characters, requirement 4.5 or 3.0, ratio in [1,21] |
| App.LivePreview | src/App.js:80-128 | the preview box takes the text and background colours, the filter of the selected mode at the current severity, and the font size of the text type |
| App.PreviewIndependence | src/App.js:130-133 | the preview does not depend on the preview text or on the contrast effect's outputs |
| App.CopyText | src/App.js:136-137 | the clipboard text is 46 characters: the label `Text Color: `, the text colour, the label `, Background Color: `, and the background colour |
| App.CopyTextRoundTrip | src/App.js:136-137 | both colours can be read back from the copied text, so different colour pairs never copy the same text |

## Left out

- React scheduling (`useState`, `useEffect`, re-render timing): each action is one atomic step followed by the contrast effect. `App.SettleAfterUnrelatedAction` shows that once the effect has run, running it again after an action that leaves its inputs alone changes nothing. So running it after every action agrees with running it only when an input changes.
- App.SwapColors: the real code reads `color2` through the render's closure inside the `setColor1` updater. The model is the intended atomic exchange, not that timing behaviour.
- DOM writes to `previewBox.style` and all JSX markup. `App.LivePreview` returns the style values as a record instead.
- The clipboard write, `alert` and `console.error` in `copyHexCodes` are foreign asynchronous I/O. Only the copied text is modelled.
- Floating point: all numbers are exact reals. IEEE rounding, `toFixed(2)` and the number-to-text conversion inside the CSS filter strings are not modelled. Filters are parameter records, not CSS text.
- Wcag.Luminance: only the [0,1] bound and the black/white values are stated. `Math.pow(x, 2.4)` is an abstract parameter, so facts that need its actual values are out of reach. One example is whether the preset palettes reach 4.5:1 for body text. The comment at src/App.js:56 calls them "WCAG-compliant", which implies that.
- `parseInt` leniency: malformed strings, partial-prefix parses, NaN and the Int32 wrap of `>>`. `HexToRgb` requires `#` followed by six hex digits, which is all the colour widget and the palette table supply. The `>>` and `& 255` operators are modelled as floor division and Euclidean remainder. These agree with two's complement for every 32-bit integer.
- Widget constraints: `maxLength={60}`, the slider's 0..100 range and the colour input's format. They are enforced by the browser, so they appear as `App.Admissible` preconditions. The slider being disabled while no simulation is selected is not modelled. It only affects the UI, because the filter is empty in that mode whatever the severity.

# Palette builder core, modelled in Dafny

This project models the colour engine of a palette builder: a React app in
which a user adds base colours, and the app derives tints, shades and hue
harmonies for each one. The model covers two source files.

- `src/lib/colorUtils.ts` becomes module `ColorUtils` (`ColorUtils.dfy`).
  It holds the hex validity check, the hex/RGB codec, RGB to HSL conversion,
  the black-or-white text contrast decision, and the generators.
- `src/services/paletteService.ts` becomes module `Palette` (`Palette.dfy`).
  It holds the colour and variation records and the class `PaletteService`.
  The class keeps an ordered `seq` of base colours and a `map` from colour
  id to variation bundle. Its methods update both in place.
- `Wrappers.dfy` defines `Option`, which stands for JavaScript's `undefined`
  and for optional fields.

How it is modelled:

- Source functions that compute a value without a loop become functions,
  one per source function:
  - `isValidHex` is `IsValidHex`;
  - `hexToRgb` is `HexToRgb`;
  - `rgbToHex` is `RgbToHex`, with one channel as `ChannelHex`;
  - `hexToHsl` is `HexToHsl`, with the branch chain as `HslFractions`;
  - `getContrastColor` is `GetContrastColor`.
- `generateComplementary` builds a local array with two pushes and returns
  it. The function `GenerateComplementary` writes those two pushes as a
  two-element sequence literal.
- Code whose `for` loops push onto a local array becomes methods with
  `while` loops. Each method is proved equal to a specification function
  (`Tints`, `Shades`, `Analogous`, `Triadic`), and the promised properties
  are lemmas about those functions.
- `hexToHsl` is computed over `real`, with `Math.round(x)` as
  `Floor(x + 0.5)`. Nothing is claimed bit for bit about doubles.
- `hslToHex` has no definition here. Each generator takes it as a function
  parameter of type `HslToHex`, so no result depends on its arithmetic. Only
  its hue `if`-chain is modelled, as the function `SectorChannels`.
- The `forEach` backfill inside `importFromJson` is the function
  `Palette.Backfill`, a left fold over the imported colours in list order.
- `generateSquare`, `generateTetradic` and `generateSplitComplementary` are
  imported by `paletteService.ts` but defined in no file of this model. They
  are function parameters too. The service receives all four as a
  `Generators` value in its constructor.
- JavaScript's `%` is modelled as `JsRem`, a remainder that takes the
  dividend's sign. Dafny's own `%` never returns a negative value.

Behaviour of the code worth knowing (the model follows the code):

- `isValidHex` requires the leading `#`.
- `rgbToHex` does not clamp its channels (`RgbToHexDoesNotClamp`).
- `hexToHsl` can return hue 360, for example for `#ff0001`
  (`Hue360Reachable`). No branch of `hslToHex` matches hue 360
  (`SectorCoverage`). `generateTints` and `generateShades` pass that hue on
  unchanged (`FullTurnHue`).
- Tints and shades include the base lightness at step 0 and reach 100 or 0
  at the last step.
- `addColor` returns nothing and checks for neither a repeated id nor a
  similar colour.
- Hex strings are stored exactly as given; no function changes their case.
- `importFromJson` does not check `palette.name`. It accepts any truthy
  `palette.baseColors`.

The key-set invariant (`PaletteService.Valid`) says the keys of `variations`
are exactly the ids in `baseColors`. The constructor establishes it.
`AddColor`, `RemoveColor` and `UpdateColor` each ensure
`old(Valid()) ==> Valid()`. So it holds after any sequence of those calls
from the initial empty state. `ImportFromJson` keeps only the weaker
`Covered` (every base colour has a bundle). After an import, `Valid` holds
exactly when the imported map has no key outside the imported ids.

## Model

| member | source | states |
|---|---|---|
| `ColorUtils.HexToRgb` | src/lib/colorUtils.ts:7-16 | every channel hexToRgb returns lies in [0, 255] |
| `ColorUtils.HexToRgbAcceptedForms` | src/lib/colorUtils.ts:3-16 | six bare digits are parsed by hexToRgb exactly as with a `#`, although isValidHex rejects them; a valid three-digit colour, and every string in neither six-digit form, reads as (0, 0, 0) |
| `ColorUtils.HexToRgbOfSix` | src/lib/colorUtils.ts:8-14 | for `#` plus six digits, each channel is the value of its two-digit group |
| `ColorUtils.ChannelDigits` | src/lib/colorUtils.ts:19-22 | a channel in [0, 255] is written as exactly two lower-case digits, the high one first |
| `ColorUtils.RgbToHexShape` | src/lib/colorUtils.ts:18-23 | for channels in [0, 255], rgbToHex gives `#` and then two digits per channel, high digit first |
| `ColorUtils.RgbToHexRoundTrip` | src/lib/colorUtils.ts:18-23 | for channels in [0, 255], rgbToHex gives `#` and six lower-case digits, passes isValidHex, and hexToRgb reads back the same channels |
| `ColorUtils.HexToRgbRoundTrip` | src/lib/colorUtils.ts:7-23 | a valid six-digit hex survives hexToRgb then rgbToHex, with its letters lower-cased |
| `ColorUtils.PairDigits` | src/lib/colorUtils.ts:8-22 | printing the value of a parsed two-digit group gives back the group's own digits, lower-cased |
| `ColorUtils.RgbToHexOfPairs` | src/lib/colorUtils.ts:7-23 | rgbToHex of the three parsed groups of six digits writes those digits back, lower-cased |
| `ColorUtils.RgbToHexDoesNotClamp` | src/lib/colorUtils.ts:18-23 | a channel of 256 gives a string isValidHex rejects: there is no clamping |
| `ColorUtils.ContrastThreshold` | src/lib/colorUtils.ts:94-98 | getContrastColor answers `#000000` exactly when 299r + 587g + 114b > 128000, and `#ffffff` otherwise, including for unparseable input |
| `ColorUtils.QuotientBounds` | src/lib/colorUtils.ts:40-50 | a numerator within plus or minus the positive denominator gives a quotient in [-1, 1] with the numerator's sign |
| `ColorUtils.FractionBounds` | src/lib/colorUtils.ts:27-54 | before scaling, the hue fraction lies in [0, 1) and saturation and lightness in [0, 1]; a grey has hue and saturation 0 |
| `ColorUtils.HexToHslBounds` | src/lib/colorUtils.ts:25-60 | hexToHsl gives h in [0, 360] and s, l in [0, 100]; a grey (max == min) has h = s = 0; unparseable input gives (0, 0, 0) |
| `ColorUtils.Hue360Reachable` | src/lib/colorUtils.ts:56-60 | for `#ff0001`, hexToHsl gives (360, 100, 50): the rounded hue reaches 360 |
| `ColorUtils.SectorCoverage` | src/lib/colorUtils.ts:71-85 | in each sector of [0, 360), one channel gets the chroma and one gets 0; a hue outside [0, 360) matches no branch and all channels stay 0 |
| `ColorUtils.HueTurn` | src/lib/colorUtils.ts:130 | a hue turned by an offset with JavaScript's `% 360` lies in [0, 360) and differs from the turned hue by whole turns |
| `ColorUtils.HarmonyHues` | src/lib/colorUtils.ts:124-160 | for a base in hexToHsl's range, every analogous, complementary and triadic hue lies in [0, 360) and is the base hue plus its offset, modulo 360 |
| `ColorUtils.GenerateTints` | src/lib/colorUtils.ts:100-110 | generateTints returns `Tints` of the base's HSL |
| `ColorUtils.FillTints` | src/lib/colorUtils.ts:102-109 | the loop pushes, at step i, hslToHex(h, s, min(100, l + (100 - l) * i / (count - 1))) |
| `ColorUtils.GenerateShades` | src/lib/colorUtils.ts:112-122 | generateShades returns `Shades` of the base's HSL |
| `ColorUtils.FillShades` | src/lib/colorUtils.ts:114-121 | the loop pushes, at step i, hslToHex(h, s, max(0, l - l * i / (count - 1))) |
| `ColorUtils.StepFraction` | src/lib/colorUtils.ts:105 | the step fraction i / (count - 1) lies in [0, 1] and grows with i |
| `ColorUtils.StepEnds` | src/lib/colorUtils.ts:105 | the step fraction is 0 at the first step and 1 at the last |
| `ColorUtils.TintLightnessOrder` | src/lib/colorUtils.ts:105-106 | tint lightness never falls from one step to the next and stays in [l, 100], from l at step 0 to 100 at the last step |
| `ColorUtils.ShadeLightnessOrder` | src/lib/colorUtils.ts:117-118 | shade lightness never rises from one step to the next and stays in [0, l], from l at step 0 to 0 at the last step |
| `ColorUtils.TintSteps` | src/lib/colorUtils.ts:100-110 | for count >= 2 there are exactly count tints at the base hue and saturation; the first is at the base lightness, the last at 100, and lightness never falls |
| `ColorUtils.ShadeSteps` | src/lib/colorUtils.ts:112-122 | for count >= 2 there are exactly count shades; the first is at the base lightness, the last at 0, and lightness never rises |
| `ColorUtils.FullTurnHue` | src/lib/colorUtils.ts:100-122 | for a base at hue 360, every tint and shade is requested from hslToHex at hue 360 |
| `ColorUtils.GenerateAnalogous` | src/lib/colorUtils.ts:124-135 | five colours, for i = -2..2 in that order, at hue (h + 30i + 360) % 360 with the base saturation and lightness |
| `ColorUtils.GenerateTriadic` | src/lib/colorUtils.ts:151-160 | three colours at hue (h + 120i) % 360 for i = 0, 1, 2 |
| `ColorUtils.ComplementaryPair` | src/lib/colorUtils.ts:137-149 | generateComplementary returns two colours: the input string verbatim, then the colour at hue (h + 180) % 360, which lies in [0, 360) |
| `Palette.VariationsOf` | src/services/paletteService.ts:49-60 | a bundle has 5 tints, 5 shades, 5 analogous, 2 complementary (the first being the base hex) and 3 triadic colours |
| `Palette.VariationBundle` | src/services/paletteService.ts:49-60 | a stored bundle's tints go from the base lightness to 100 and its shades down to 0; all of its harmony hues lie in [0, 360) |
| `Palette.WithoutId` | src/services/paletteService.ts:37 | the filtered list holds exactly the colours whose id differs, and is no longer than the input |
| `Palette.WithoutIdIds` | src/services/paletteService.ts:37-38 | filtering removes exactly that id from the id set |
| `Palette.WithoutIdAbsent` | src/services/paletteService.ts:37 | filtering by an id that is absent returns the list unchanged |
| `Palette.WithoutIdAppend` | src/services/paletteService.ts:37 | filtering distributes over concatenation, so the survivors keep their order |
| `Palette.FindIndex` | src/services/paletteService.ts:42 | the first index holding the id, with no earlier match; -1 exactly when the id is absent |
| `Palette.ReplaceKeepsIds` | src/services/paletteService.ts:44 | writing a same-id entry at an index keeps the id set |
| `Palette.BackfillKeys` | src/services/paletteService.ts:102-107 | the backfill adds exactly the imported ids to the keys |
| `Palette.BackfillKeeps` | src/services/paletteService.ts:103-104 | the backfill never overwrites a bundle that is already present |
| `Palette.BackfillMissing` | src/services/paletteService.ts:103-106 | an id with no bundle gets the bundle generated from the first colour carrying it |
| `Palette.BackfillSpec` | src/services/paletteService.ts:102-107 | after the backfill the keys are the imported keys plus the imported ids; imported bundles are untouched; a missing id gets the bundle of the first colour carrying it |
| `Palette.PaletteService.constructor` | src/services/paletteService.ts:26-29 | the service starts with no colours and no bundles, and the invariant holds |
| `Palette.PaletteService.AddColor` | src/services/paletteService.ts:31-34 | appends the colour last, sets `variations[color.id]` with no duplicate check, and preserves the key-set invariant |
| `Palette.PaletteService.RemoveColor` | src/services/paletteService.ts:36-39 | drops every colour with that id, keeps the others in order, deletes that key, changes nothing for an absent id, and preserves the invariant |
| `Palette.PaletteService.UpdateColor` | src/services/paletteService.ts:41-47 | replaces the first matching colour, at its index, by `{id, hex, name}` and regenerates that bundle; with no match neither the list nor the map changes; preserves the invariant |
| `Palette.PaletteService.GenerateVariations` | src/services/paletteService.ts:49-60 | stores the generated bundle under the colour's id and changes nothing else |
| `Palette.PaletteService.GetColors` | src/services/paletteService.ts:62-64 | returns the current base-colour list |
| `Palette.PaletteService.GetVariations` | src/services/paletteService.ts:66-68 | returns the stored bundle unchanged, or `None` exactly when the id has none |
| `Palette.PaletteService.ImportFromJson` | src/services/paletteService.ts:95-113 | with `palette.baseColors` present: replaces the list, replaces the map with the backfilled imported map (or `{}`), and every colour has a bundle; otherwise nothing changes; a syntax error or `null` gives "Invalid JSON format" and changes nothing |

## Left out

- `exportToJson` and `downloadJson` (src/services/paletteService.ts:70-93): they need `Date`, `JSON.stringify`, `Blob`, `URL` and the DOM.
- `JSON.parse` is not modelled. `ImportFromJson` takes the parsed value as a `Parsed` value.
- ImportFromJson: a truthy `palette.baseColors` that is not an array makes `forEach` throw after both fields were overwritten. That partial update is not modelled: `baseColors` is always a list here.
- ImportFromJson: an exception thrown inside the backfill would also surface as "Invalid JSON format". Here the generators are total, so that cannot happen.
- ImportFromJson: the source treats an imported bundle that is `null` or another falsy value as missing. Here the imported map holds only bundles.
- Keys that JavaScript objects inherit (`constructor`, `__proto__`, ...) make `variations[id]` truthy for an id never stored. The model's `map` has no such keys.
- Aliasing is not modelled. `getColors` returns the live array, and `importFromJson` keeps the imported objects by reference. The model copies values.
- hslToHex (src/lib/colorUtils.ts:63-92): only the hue `if`-chain is modelled (`SectorChannels`). Its chroma, `Math.abs`, `%` on doubles and rounding are the caller-supplied `HslToHex`, so nothing is proved about which hex it returns.
- generateSquare, generateTetradic and generateSplitComplementary are defined in no file of this model. They are parameters, and nothing is proved about bundles' `square`, `tetradic` and `splitComplementary` lists.
- GenerateTints and GenerateShades require `count != 1`, because JavaScript computes `0 / 0 = NaN` for the lightness when count is 1. NaN is not modelled.
- HexToHslBounds: the bounds are proved over real numbers. Rounding at .5 boundaries in doubles is not modelled.
- The `console.error` call in importFromJson (src/services/paletteService.ts:110) is not modelled: logging has no effect on the state.
- The React hook, the components and the Python rendering scripts are UI, clipboard, file and pixel code, and are not part of this model.

# XAML brushes from Figma paint styles — a Dafny model

The Figma plugin XamlStyles turns a document's local paint styles into XAML
resource markup. Each solid paint becomes one `<SolidColorBrush …/>` element and each linear
gradient paint becomes one `<LinearGradientBrush …>` element holding a
`<GradientStop …/>` line for every stop. All other paint kinds are skipped.
The brush key is the style's name with the characters `&/\#,+()$~%.'":;*?<>{}` and
JavaScript whitespace removed; every other character, such as `!`, `-` or `_`, is kept.
In the Figma editor a style with more than one paint also appends `/` and the
camelized blend mode to the key, before the removal. Colours are written as
`#AARRGGBB`, two upper-case hex digits per channel.

The model is in these files:

- `hex.dfy`: the colour channel formatter (`ColorToHex`, `RgbToHex`) and a hex decoder that serves as its inverse.
- `casing.dfy`: ASCII case mapping and `camelize`.
- `sanitize.dfy`: the key sanitiser, written as a character filter.
- `paints.dfy`: the paint, gradient stop and paint style records.
- `brushes.dfy`: the two brush generators, with readers that parse their markup back.
- `styles.dfy`: the `generate-styles` driver for both editor branches, against a flat list of (name, paint count, paint) entries.
- `scan.dfy`, `concat.dfy`, `wrappers.dfy`: small helpers.

## Model

| member | source | states |
|---|---|---|
| Hex.ToBase16 | XamlStyles/code.ts:130 | `Number(n).toString(16)` is a non-empty string of lower-case hex digits with no leading zero that reads back as `n`. It is one digit below 16 and two digits from 16 to 255. |
| Hex.UpperKeepsValue | XamlStyles/code.ts:134 | Upper-casing a hex string keeps every character a hex digit and keeps its numeric value. |
| Hex.ColorToHex | XamlStyles/code.ts:129-135 | For a channel value 0..255 the result is exactly two upper-case hex digits whose value is the channel. |
| Hex.ColorToHexNibbles | XamlStyles/code.ts:129-135 | The two digits are the upper-case digits of the high and the low nibble, so the zero padding lands in front. |
| Hex.ColorToHexExamples | XamlStyles/code.ts:129-135 | 255 is written `FF` and 0 is written `00`. |
| Hex.HexByte | XamlStyles/code.ts:129-135 | The decoder accepts exactly the two-character strings of hex digits, and their value is sixteen times the first digit plus the second. |
| Hex.HexByteRoundTrip | XamlStyles/code.ts:129-135 | Decoding the text of a channel gives that channel back. |
| Hex.ColorToHexInjective | XamlStyles/code.ts:129-135 | Two channels have the same text if and only if they are equal. |
| Hex.HexBytesRoundTrip | XamlStyles/code.ts:95-101 | A run of channels written back to back, followed by any text, is read back as the same channels with that text left over. |
| Hex.RgbToHex | XamlStyles/code.ts:137-142 | The result has 7 characters and starts with `#`. Characters 1-2, 3-4 and 5-6 decode to red, green and blue. Every character after `#` is an upper-case hex digit. |
| Casing.ToLower | XamlStyles/code.ts:151 | Lower-casing keeps the length and maps every character through the ASCII lower-case mapping. |
| Casing.ToUpper | XamlStyles/code.ts:134 | Upper-casing keeps the length and maps every character through the ASCII upper-case mapping. |
| Casing.Camelize | XamlStyles/code.ts:150-153 | Same length. The first character is the upper-case form of the input's first character. Every later character is the lower-case form of the input's character. |
| Casing.CamelizeIgnoresCase | XamlStyles/code.ts:150-153 | Lower-casing or upper-casing the input first does not change the result. |
| Casing.CamelizeIdempotent | XamlStyles/code.ts:150-153 | Camelizing twice equals camelizing once. |
| Casing.CamelizeBlendModes | XamlStyles/code.ts:28 | Blend modes like `NORMAL` and `HUE` become the suffixes `Normal` and `Hue`. |
| Sanitizer.Sanitize | XamlStyles/code.ts:92 | The result contains none of the removed characters and is never longer than the input. |
| Sanitizer.SanitizeAppend | XamlStyles/code.ts:92 | The global replace works character by character: sanitising a concatenation concatenates the sanitised parts. |
| Sanitizer.SanitizeChar | XamlStyles/code.ts:92 | A single character is dropped exactly when it is one of `&/\#,+()$~%.'":;*?<>{}` or JavaScript whitespace. |
| Sanitizer.SanitizeFixesClean | XamlStyles/code.ts:92 | A name is left unchanged if and only if it contains no removed character. |
| Sanitizer.SanitizeIdempotent | XamlStyles/code.ts:106 | Sanitising an already sanitised key changes nothing. |
| Sanitizer.SanitizeCounts | XamlStyles/code.ts:92 | A removed character occurs zero times in the result. Any other character occurs as often as in the input. |
| Sanitizer.SanitizeMembership | XamlStyles/code.ts:92 | A character occurs in the result if and only if it occurs in the input and is not removed. |
| Brushes.ArgbHexChannels | XamlStyles/code.ts:94-101 | The colour attribute is the alpha, red, green and blue channel texts, in that order. |
| Brushes.ArgbRoundTrip | XamlStyles/code.ts:94-101 | Reading eight hex digits back gives the four channels and leaves the following text. |
| Brushes.SolidBrushRoundTrip | XamlStyles/code.ts:90-102 | Parsing a solid brush gives the sanitised name as key, and a colour whose alpha is the paint's opacity, followed by red, green and blue. |
| Brushes.SolidBrushInjective | XamlStyles/code.ts:90-102 | Two solid brushes are the same text only when their sanitised names, colours and opacities agree. |
| Brushes.SolidBrushExample | XamlStyles/code.ts:101 | Opaque red named `Primary` is written with colour `#FFFF0000` and key `Primary`. |
| Brushes.StopLinesAppend | XamlStyles/code.ts:109-117 | Each stop contributes its own line independently: the lines of a concatenation are the concatenated lines. |
| Brushes.StopLinesSnoc | XamlStyles/code.ts:116 | Appending one stop appends exactly its line. |
| Brushes.GenerateGradientBrush | XamlStyles/code.ts:104-121 | The loop that appends one line per stop produces the header, the stop lines in order and the closing tag. |
| Brushes.ParseStopsRoundTrip | XamlStyles/code.ts:109-119 | The stop lines followed by the closing tag are read back as exactly the stops, in their order. |
| Brushes.GradientBrushRoundTrip | XamlStyles/code.ts:104-121 | Parsing a gradient brush gives the sanitised name followed by `r` as key, and every stop's colour and position in order. |
| Brushes.GradientBrushNoStops | XamlStyles/code.ts:108-119 | A gradient without stops is just the header line and the closing tag, and it parses to an empty stop list. |
| Styles.PaintEntriesShape | XamlStyles/code.ts:26-33 | A style contributes one entry per solid or linear-gradient paint, each emitting and each carrying the style's name and multi-paint flag. |
| Styles.PaintEntriesAppend | XamlStyles/code.ts:26-33 | Entries keep paint order: the entries of concatenated paint lists are the concatenated entries. |
| Styles.PaintBrushesSingle | XamlStyles/code.ts:27-32 | A single paint yields its brush under its key when it is solid or linear gradient, and nothing otherwise. |
| Styles.PaintBrushesAppend | XamlStyles/code.ts:26-33 | Paints are handled one after another in their order: the brushes of concatenated paint lists are the concatenated brushes. |
| Styles.PaintBrushesAsEntries | XamlStyles/code.ts:26-33 | The brushes of one style's paints are the brushes of its entries. |
| Styles.EntriesAllEmit | XamlStyles/code.ts:24-34 | Every entry holds an emitting paint. Their number is the count of solid and linear-gradient paints over all styles. |
| Styles.GenerateStylesAsEntries | XamlStyles/code.ts:24-34 | The driver's output equals the brush of every flattened entry, in order. |
| Styles.GenerateStylesByEntries | XamlStyles/code.ts:65-75 | The output has one brush per emitting paint. Brush k is the brush of entry k, in both editor branches. |
| Styles.PaintEntriesMembership | XamlStyles/code.ts:26-33 | An entry belongs to a style exactly when it carries the style's name and paint count, and one of its paints that is solid or linear gradient. |
| Styles.EntriesMembership | XamlStyles/code.ts:24-34 | An entry appears exactly when some style has that name and paint count and holds that emitting paint. |
| Styles.GenerateStylesAppend | XamlStyles/code.ts:24-34 | Styles are processed one after another: the output for a concatenation is the concatenated output. |
| Styles.KeyOfPaint | XamlStyles/code.ts:28-31 | In Figma, a multi-paint style's key is the sanitised name followed by the sanitised camelized blend mode, because the `/` is removed. Otherwise, including every key of the non-Figma branch (lines 69-72), the key is the sanitised name. |
| Styles.MultiPaintKeysDiffer | XamlStyles/code.ts:28 | In Figma, two paints of one multi-paint style get distinct keys when their camelized, sanitised blend modes differ. |

## Left out

- The host bridge is not modelled because it is I/O against the Figma runtime: `figma.showUI`, the `onmessage` handler's `copy` and `cancel` messages, `postMessage`, `closePlugin` and `CopyToClipboard` (code.ts lines 11-22, 36-46, 52-64, 77-87, 144-148). The driver's result is the list of brush strings that would be posted as `data.colors`.
- The paint styles are an input to the driver rather than read through `figma.getLocalPaintStyles()`. Which of the two editor branches runs is an input as well.
- `BeautifyColor` (rounding `value * 255`) is floating-point arithmetic, so channels and opacity enter the model as integers 0..255 that are already rounded.
- Hex.ColorToHex: takes only 0..255, which is all that `BeautifyColor` produces from Figma's 0..1 channels. For a value of 256 or more the source would emit more than two digits, and negative values are not covered.
- Paint kinds other than solid and linear gradient are kept only as a tag, since the driver skips them. Their remaining fields (image hashes, transforms, and so on) are not modelled.
- A gradient stop's position is written with JavaScript's number-to-string conversion. The model takes that text as an opaque string and does not model the conversion.
- Casing.ToLower: maps only ASCII letters. JavaScript's `toLowerCase`/`toUpperCase` use full Unicode case mapping. Figma blend modes are ASCII upper-case words, so the two agree on them.
- Casing.ToUpper: maps only ASCII letters, for the same reason.
- `blendMode` is optional in Figma's typings, and `camelize(undefined)` would throw. The model takes every paint to carry a blend mode string.
- Brushes.GradientBrushRoundTrip: requires stop positions without a double quote, since the reader stops at the first quote. JavaScript number text never contains one.
- Styles.MultiPaintKeysDiffer: requires the camelized, sanitised blend modes to differ. The source does nothing to keep keys unique: two paints of one style with the same blend mode, or two styles whose names sanitise alike, produce brushes with the same key.
- `RGBToHex` is unused by the plugin. It is modelled only for its format.

# Everforest palette extractor, modelled in Dafny

This project models the core of the Everforest palette viewer:

- the extractor in `lib/palette.ts`, which reads the lines of `palette.md` once, top to bottom, and builds a nested palette:
  - two variants (dark, light);
  - per variant, background rows for each contrast level (hard, medium, soft);
  - per variant, foreground colours for each group (default, accents, greys, statusline);
- the integer part of `lib/color.ts`: `hexToRgb` and `clamp`.

Modules, one per concept:

- `Text` (text.dfy): JavaScript's `trim`, `startsWith` and `includes`, ASCII case mapping and hex digits. `Maybe` in the same file holds the `Option` type.
- `Swatch` (swatch.dfy): `HEX_SWATCH_RE`, `normalizeHex` and `extractHexes`. The scanner is proved equal to a position-by-position reference, which shows it finds every `![#hhhhhh]` marker on the line, left to right.
- `PaletteModel` (palette_model.dfy): the result types, with the closed key sets as datatypes. Also `emptyVariantPalette` and the two slot updates: append one row, extend one group.
- `Extractor` (extractor.dfy): the loop of `getEverforestPalette`.
  - `Step` is one iteration on an untrimmed line. It uses the first-match-wins rule table (`Classify`) and the four optional pieces of scan state.
  - `Run` is the fold of `Step`. The `break` on `## Highlights` becomes a `halted` flag, after which nothing changes.
  - `Parse` is the whole document. `GetPalette` is the loop as written, with its `break`.
- `Scenarios` (scenarios.dfy): the step lemmas chained over one concrete document.
- `Color` (color.dfy): `clamp` over reals, and `hexToRgb` with both round trips.

Two behaviours of the code are worth knowing before reading the model:

- An unrecognised `<sub>` label keeps the previous contrast or group, because the code assigns only when the label is recognised (lib/palette.ts:134-136, 142-149).
- Headings are matched by prefix on the full heading text, such as `#### Background Colors (palette1)`. So `### Darkness` is a Dark heading.

## Model

| member | source | states |
|---|---|---|
| `Text.Trim` | lib/palette.ts:97 | The trimmed line is empty or begins and ends with a non-space character. White space is the ECMAScript WhiteSpace and LineTerminator set. |
| `Text.TrimExact` | lib/palette.ts:97 | `trim` removes exactly the white space around a body that starts and ends with non-space, and nothing else. |
| `Swatch.NormalizeHex` | lib/palette.ts:51-53 | The result is `#` plus the input, changed only in letter case. Six hex digits always give a canonical `#HHHHHH` colour. |
| `Swatch.ExtractHexes` | lib/palette.ts:55-61 | Every extracted colour is `#` plus six characters from `0-9A-F`. There is at most one colour per ten characters of line, because matches do not overlap. |
| `Swatch.ExtractHexesFindsEverySwatch` | lib/palette.ts:31 | The global scan equals a reference that tests every start position. So each `![#hhhhhh]` marker gives exactly one colour, in left-to-right order. Markers with the wrong length or non-hex content give none. |
| `Swatch.NoOpenerNoHexes` | lib/palette.ts:154-157 | A line without `![#` yields no colour, so the `includes` test never drops a colour. |
| `Swatch.ExtractLeadingSwatch` | lib/palette.ts:31 | A leading marker with digits in any case contributes its upper-cased colour first, then scanning continues after it. |
| `Swatch.ExtractHexesOfMarkup` | lib/palette.ts:55-61 | Round trip: extracting from the `![#HHHHHH]` markup of canonical colours gives back exactly those colours, in order. |
| `PaletteModel.EmptyVariantPalette` | lib/palette.ts:35-49 | A fresh variant palette has no rows at any contrast level and no colours in any group. |
| `PaletteModel.EmptyPalette` | lib/palette.ts:86-89 | Both variants start empty in every slot. |
| `PaletteModel.AppendRow` | lib/palette.ts:161 | The chosen (variant, contrast) slot gains exactly one row at its end. Every other slot is unchanged. |
| `PaletteModel.ExtendGroup` | lib/palette.ts:167 | The chosen (variant, group) slot is extended by the colours in order. Every other slot is unchanged. |
| `Extractor.SubLabel` | lib/palette.ts:131 | A recognised label line is `<sub>`, then a non-empty label without `<`, then `</sub>`. The tags may be in any letter case. |
| `Extractor.SubLabelOfTags` | lib/palette.ts:131 | Conversely, every such line is recognised, and its label is the text between the tags. |
| `Extractor.ContrastOf` | lib/palette.ts:133-135 | A label names a contrast level exactly when its lower-cased form is that level's name. |
| `Extractor.GroupOf` | lib/palette.ts:141-149 | A label names a foreground group exactly when its lower-cased form is that group's name. |
| `Extractor.TitlesExclusive` | lib/palette.ts:99-129 | No line can start with two different heading prefixes. No heading line is a label. |
| `Extractor.Classify` | lib/palette.ts:99-151 | Each rule fires exactly when its own test holds, whatever the rule order. A content line is exactly a line that no heading or label rule claims. |
| `Extractor.AddColors` | lib/palette.ts:153-169 | The colour-line rule never changes scan state. It only appends canonical colours to the palette. |
| `Extractor.Step` | lib/palette.ts:96-170 | Once halted, a step does nothing. Otherwise a step either leaves the palette alone or is the colour-line rule. |
| `Extractor.StepExtends` | lib/palette.ts:153-169 | A step keeps every row and colour already collected, in order, and adds only canonical colours. |
| `Extractor.Run` | lib/palette.ts:96-170 | The loop never loses or reorders collected colours, and keeps the palette canonical. After the halt it changes nothing. |
| `Extractor.Start` | lib/palette.ts:86-94 | The scan starts with variant, section, contrast and group unset, every slot of both variants empty, and not stopped. |
| `Extractor.Parse` | lib/palette.ts:86-170 | Every colour in the result is `#` plus six characters from `0-9A-F`. Empty input gives the all-empty palette. |
| `Extractor.RunAppend` | lib/palette.ts:96-170 | Scanning two stretches of lines one after the other is the same as scanning them joined. |
| `Extractor.ParseStopsAtHighlights` | lib/palette.ts:99 | Content after the first line starting with `## Highlights` is never read: `Parse(L1 + [h] + L2) == Parse(L1)`. |
| `Extractor.ParseOnlyExtends` | lib/palette.ts:159-168 | More lines only add at the end of slots. Rows and colours read earlier keep their contents and order. |
| `Extractor.VariantHeadingStep` | lib/palette.ts:101-115 | A line starting with `### Dark` or `### Light` sets the variant and unsets section, contrast and group. The palette is unchanged. |
| `Extractor.SectionHeadingStep` | lib/palette.ts:117-129 | A section heading sets the section and unsets contrast and group. The variant and the palette are unchanged. |
| `Extractor.ContrastLabelStep` | lib/palette.ts:131-138 | With a variant set in the background section, a label sets the contrast only when it lower-cases to hard, medium or soft. Otherwise the previous contrast stays. Nothing else changes. |
| `Extractor.GroupLabelStep` | lib/palette.ts:140-151 | The same rule in the foreground section, for the group names default, accents, greys and statusline. |
| `Extractor.InertLineStep` | lib/palette.ts:153-166 | These lines leave the palette unchanged: no variant or section set; no `![#`; no extracted colour; a background line without a contrast; a foreground line without a group. |
| `Extractor.ContentLineKeepsState` | lib/palette.ts:153-169 | A line that is neither a heading nor a label never changes the scan state or the halt flag. Every skip is a bare `continue`, so a label still applies to colour lines after blank lines or prose. |
| `Extractor.UnscopedLabelKeepsState` | lib/palette.ts:132-153 | A `<sub>` label read while the variant or the section is unset changes nothing at all. |
| `Extractor.BackgroundRowStep` | lib/palette.ts:159-162 | A background colour line with a contrast set appends exactly one row, equal to the extracted list. Every other slot and the scan state stay unchanged. |
| `Extractor.ForegroundColorsStep` | lib/palette.ts:165-168 | A foreground colour line with a group set extends that group by the extracted list. Earlier entries, every other slot and the scan state stay unchanged. |
| `Extractor.GetPalette` | lib/palette.ts:86-170 | The loop with its `break` computes exactly `Parse` of the lines, so its result is canonical. |
| `Scenarios.MediumRowsInOrder` | lib/palette.ts:101-162 | Example document: Dark, Background, `<sub>Medium</sub>`, then two colour lines. The result is two medium rows, `["#2D353B","#343F44"]` then `["#3D484D"]`. Lower-case digits come out upper-cased. |
| `Color.Clamp` | lib/color.ts:1-3 | The result lies in `[min, max]` when `min <= max`. It is the value itself when already inside. It is `max` when the bounds cross. |
| `Color.ClampIdempotentMonotone` | lib/color.ts:1-3 | Clamping twice equals clamping once, and clamping preserves the order of values. |
| `Color.HexToRgb` | lib/color.ts:5-14 | A colour is returned exactly when the trimmed input is six hex digits, with or without one leading `#`. Each channel is in 0..255. The packed value `r*65536 + g*256 + b` is the base-16 value of the digits. |
| `Color.StripHash` | lib/color.ts:6 | The digits are the trimmed text, minus exactly one leading `#` when there is one, and otherwise unchanged. |
| `Color.HexValue` | lib/color.ts:8 | The base-16 value of `n` hex digits is below `16^n`. |
| `Color.SixDigitValue` | lib/color.ts:8 | The base-16 value of six digits is three digit pairs, most significant first. |
| `Color.UnpackBytes` | lib/color.ts:10-12 | The shifts and masks recover the three packed bytes. |
| `Color.HexToRgbBytes` | lib/color.ts:8-13 | The channels are the values of the first, second and third digit pairs. |
| `Color.HexToRgbThenHex` | lib/color.ts:8-13 | Round trip: re-encoding the channels as six upper-case hex digits gives the input digits, upper-cased. |
| `Color.RgbHexThenHexToRgb` | lib/color.ts:8-13 | Round trip: decoding the six-digit encoding of any valid colour returns that colour. |
| `Color.HexToRgbIgnoresCaseAndSpace` | lib/color.ts:6-7 | Surrounding white space, one leading `#` and letter case do not change the result. For example, `" #aabbcc "` decodes like `"AABBCC"`. |
| `Color.HexToRgbRejects` | lib/color.ts:6-7 | `##` before the digits gives no colour, because only one `#` is removed. 5-, 7- or any non-6-digit input gives no colour, with or without `#`. |

## Left out

- Locating, reading and caching the document (`resolvePalettePath`, `fs.existsSync`/`readFileSync`, the "not found" error, `cachedPalette`; lib/palette.ts:33, 63-84, 172): these are file-system I/O and process-global state. The model starts from the document's lines.
- Splitting the text on `\r?\n` (lib/palette.ts:84): the lines are the input of `Parse`. A `\r` left at either end of a line is removed by `trim`. A `\r` inside a line is kept, as in the source: with CR-only line endings the whole file is one line.
- `toLowerCase` and the regular expression's `/i` flag are modelled as ASCII case mapping. This matches the source for these keywords. In the regular expression's non-Unicode mode, case folding never maps a non-ASCII character to an ASCII one. For `toLowerCase`, the only non-ASCII character that lower-cases to an ASCII letter is the Kelvin sign, which gives `k`, and no keyword contains `k`.
- `Color.Clamp`: modelled over `real`, without NaN or infinities. `Math.min`/`Math.max` on IEEE doubles are not modelled.
- `relativeLuminance`, `srgbToLinear` and `readableTextColor` (lib/color.ts:16-34): they are floating-point sRGB relative luminance, with division and the 2.4 exponent.
- `withAlpha` (lib/color.ts:36-40): it formats a floating-point alpha as text. It relies on `hexToRgb` (modelled) and `clamp` (modelled), and falls back to channels 0,0,0 for invalid input.
- The React components (components/*.tsx, app/*.tsx) are left out. They cover rendering, tab key handling, toast timers and an asynchronous clipboard call into a module that is not part of this model.
- `palette1[c]` is `{ rows: string[][] }` in the source (lib/palette.ts:8-12). The model stores the bare sequence of rows. The wrapper object carries nothing else.
- Strings are sequences of Unicode scalar values, not UTF-16 code units. This changes nothing here: the file is read as UTF-8, and every delimiter, white-space character and keyword is in the Basic Multilingual Plane.

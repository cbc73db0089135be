# RTL text image popup: layout core in Dafny

This project models the layout core of the browser-extension popup in
`tradingview-rtl-text/popup.js`. The popup renders right-to-left text into a
PNG for pasting into TradingView. The model covers:

- **Word wrapping** (`wrapTextLines`): one input line is split on single spaces
  and the words are packed greedily into display lines against a width
  budget. Text measurement (`ctx.measureText(..).width`) is a parameter
  `measure: string -> Width`, where `Width` is a non-negative real.
- **Layout** (the part of `generateImage` before painting): it returns early on
  blank text. Otherwise it splits the text on `\n`, wraps each line when
  wrapping is on, keeps a running maximum of the measured widths and caps it
  at the effective width. It then computes the canvas size and the anchors
  the lines are drawn at.
- **`hexToRgb`**: parses a `#rrggbb` colour, with the `#` optional and the
  digits in either case. Anything else gives black. A formatter for the
  lower-case `#rrggbb` form is the round-trip partner of the parser.
- **Settings steps**: the plus/minus buttons for font size, line height,
  border width and padding. The global `settings` object is a class `Popup`
  whose button handler updates it in place.

Modules: `JsString` (`split`, `join` and `trim` semantics), `Color`, `Wrap`,
`PopupSettings` and `Layout`. Each layout loop in the source is a method. Each method
is proved equal to a specification function (`WrapLines`, `WrappedLines`,
`MaxMeasure`, `LayoutOf`), and the properties are lemmas about those functions.

Representation choices:

- Pixel quantities are exact `real`s.
- The line-height multiplier is a whole number of tenths (`15` means
  1.5). This is what the `toFixed(1)` rounding keeps it to.
- The effective wrap width is
  `maxWidth - 2*padding - (showBorder ? 2*borderWidth : 0)`. The code
  does not clamp it at zero, and the model follows the code.
  `Layout.NegativeEffectiveWidth` states what the unclamped value does to the
  canvas.

## Model

| member | source | states |
|---|---|---|
| `JsString.TrimEmptyIffBlank` | tradingview-rtl-text/popup.js:138-139 | `s.trim()` is empty exactly when every character of `s` is JavaScript whitespace |
| `JsString.TrimStart` | tradingview-rtl-text/popup.js:138 | the result is a suffix of the input that does not start with whitespace, and everything dropped is whitespace |
| `JsString.TrimEnd` | tradingview-rtl-text/popup.js:138 | the result is a prefix of the input that does not end with whitespace, and everything dropped is whitespace |
| `JsString.Trim` | tradingview-rtl-text/popup.js:138 | `s.trim()` is no longer than `s` and neither starts nor ends with whitespace (`JsString.TrimIsInfix` ties it to `s`) |
| `JsString.TrimIsInfix` | tradingview-rtl-text/popup.js:138 | `s.trim()` is a contiguous piece of `s` with only whitespace before and after it: `s` with its leading and trailing whitespace removed |
| `JsString.Split` | tradingview-rtl-text/popup.js:154 | `s.split(sep)` for a one-character separator always has at least one piece, and no piece contains the separator |
| `JsString.JoinSplit` | tradingview-rtl-text/popup.js:167 | joining the pieces of `split(sep)` with `sep` gives the input back |
| `JsString.SplitLength` | tradingview-rtl-text/popup.js:154 | `split(sep)` yields one piece more than the number of separators, so empty lines are kept |
| `Color.MatchesColorPattern` | tradingview-rtl-text/popup.js:101 | the language of `/^#?([a-f\d]{2})([a-f\d]{2})([a-f\d]{2})$/i`: `#` and six hex digits, or six hex digits, in either case (a predicate with no contract; `HexToRgb` states what a match gives) |
| `Color.HexToRgb` | tradingview-rtl-text/popup.js:100-107 | each component is in 0..255; a string outside the `#?` + six-hex-digit pattern gives (0,0,0); a match gives the three two-digit values |
| `Color.HashIsOptional` | tradingview-rtl-text/popup.js:101 | `"#"+s` and `s` parse identically whenever `s` does not itself start with `#` |
| `Color.CaseInsensitive` | tradingview-rtl-text/popup.js:101 | lower-casing the input never changes the parsed colour |
| `Color.ParseFormat` | tradingview-rtl-text/popup.js:100-107 | parsing the `#rrggbb` form of any colour with components in 0..255 gives that colour back |
| `Color.FormatParse` | tradingview-rtl-text/popup.js:100-107 | parsing a well-formed colour and formatting it again gives `#` and its digits in lower case |
| `Wrap.WrapLines` | tradingview-rtl-text/popup.js:110-132 | the value `wrapTextLines` returns: the words of `text.split(' ')` folded left to right, committing the accumulator when the tentative line is wider than the budget and the accumulator is non-empty, then committing a non-empty accumulator (no contract of its own; the `Wrap` lemmas below state its properties) |
| `Wrap.WrapTextLines` | tradingview-rtl-text/popup.js:110-132 | the loop returns `WrapLines(text)`; every line is non-empty; every line is a word of `text.split(' ')` or measures at most `maxWidth`; there are no more lines than words; with no empty word the lines joined by spaces are `text` |
| `Wrap.WrapLinesShape` | tradingview-rtl-text/popup.js:116-129 | every emitted line is non-empty, is a single word or fits the budget, and the line count is at most the word count |
| `Wrap.WrapLinesRoundTrip` | tradingview-rtl-text/popup.js:111-131 | when `split(' ')` has no empty word, joining the output lines with `' '` reproduces the input line exactly |
| `Wrap.WrapLinesGreedy` | tradingview-rtl-text/popup.js:119-121 | every line except the last, followed by a space and the first word of the next line, is wider than the budget: no line was committed early |
| `Wrap.NegativeBudgetOneWordPerLine` | tradingview-rtl-text/popup.js:115-129 | with a negative budget the output is exactly the non-empty words, one per line, in order |
| `PopupSettings.StepUp` | tradingview-rtl-text/popup.js:270 | `Math.min(v + step, hi)` is at most `hi` and at most `v + step`, and equals one of them |
| `PopupSettings.StepDown` | tradingview-rtl-text/popup.js:277 | `Math.max(v - step, lo)` is at least `lo` and at least `v - step`, and equals one of them |
| `PopupSettings.Press` | tradingview-rtl-text/popup.js:268-363 | a button changes only its own setting; an increment sets it to `Math.min(v + step, hi)` and a decrement to `Math.max(v - step, lo)`, so an in-range setting stays in range and moves by at most one step |
| `PopupSettings.PressKeepsAllInRange` | tradingview-rtl-text/popup.js:268-363 | font size in [8,100], line height in [1.0,3.0], border width in [0,20] and padding in [0,100] all hold after any button press if they held before |
| `PopupSettings.IncThenDec` | tradingview-rtl-text/popup.js:268-363 | an increment followed by a decrement, starting at least one step below the upper bound, restores the settings exactly |
| `PopupSettings.DecThenInc` | tradingview-rtl-text/popup.js:268-363 | a decrement followed by an increment, starting at least one step above the lower bound, restores the settings exactly |
| `PopupSettings.SaturatesAtBounds` | tradingview-rtl-text/popup.js:268-363 | at its upper bound an increment changes nothing, and at its lower bound a decrement changes nothing |
| `PopupSettings.DefaultsInRange` | tradingview-rtl-text/popup.js:2-17 | the initial settings are within every stepped range |
| `PopupSettings.Popup.constructor` | tradingview-rtl-text/popup.js:2-17 | the settings object starts at `Defaults`: weight 400, font size 20, line height 1.5, text `#000000`, background `#ffffff` at opacity 100 and filled, no border (`#000000`, width 2), padding 20, no wrapping, maximum width 800, no saved text |
| `PopupSettings.Popup.ButtonClicked` | tradingview-rtl-text/popup.js:268-363 | a click replaces the settings by `Press(old settings, button)` and keeps every stepped setting in range |
| `Layout.EffectiveWidth` | tradingview-rtl-text/popup.js:155 | the wrap budget is exactly what is left of `maxWidth` after padding and shown border on both sides: a content block that wide gives a canvas exactly `maxWidth` wide |
| `Layout.BorderPx` | tradingview-rtl-text/popup.js:185 | the local `borderWidth`: the border width when the border is shown, else 0 (no contract of its own; `Layout.TextFrame` and `Layout.LayoutSize` use it) |
| `Layout.LineHeightPx` | tradingview-rtl-text/popup.js:172 | `lineHeightPx = fontSize * lineHeight`, with the multiplier in tenths (no contract of its own; `Layout.LayoutSize` states the height it gives) |
| `Layout.Contribution` | tradingview-rtl-text/popup.js:157-163 | what one input line adds in wrap mode: `[""]` when `line.trim()` is empty, else `wrapTextLines(line, effectiveMaxWidth)` (no contract of its own; `Layout.WrapDisplayLines` states its properties) |
| `Layout.WrappedLines` | tradingview-rtl-text/popup.js:157-164 | the lines the wrap-mode `forEach` pushes: the contributions of the input lines, in input order (no contract of its own; `Layout.CollectWrappedLines` is proved equal to it and `Layout.WrapDisplayLines` states its properties) |
| `Layout.DisplayLines` | tradingview-rtl-text/popup.js:152-168 | `allLines`: the wrapped lines of `text.split('\n')` when wrapping is on, else `text.split('\n')` itself (no contract of its own; `Layout.NoWrapLinesAreInputLines` and `Layout.WrapDisplayLines` state its properties) |
| `Layout.CanvasWidth` | tradingview-rtl-text/popup.js:183-189 | `maxWidth + totalPadding + totalBorder`, the border counted only when shown (no contract of its own; `Layout.LayoutSize` and `Layout.TextFrame` state it) |
| `Layout.CanvasHeight` | tradingview-rtl-text/popup.js:172-190 | `allLines.length * fontSize * lineHeight + totalPadding + totalBorder` (no contract of its own; `Layout.LayoutSize` states it) |
| `Layout.StartX` | tradingview-rtl-text/popup.js:220 | the right edge lines are aligned to: the canvas width less padding and shown border (no contract of its own; `Layout.TextFrame` states where it lies) |
| `Layout.StartY` | tradingview-rtl-text/popup.js:221 | the top of the first line: padding plus shown border (no contract of its own; `Layout.TextFrame` states it) |
| `Layout.LineY` | tradingview-rtl-text/popup.js:223-226 | the top `startY + i*lineHeightPx` of line i (no contract of its own; `Layout.LineInsideInsets` states where it lies) |
| `Layout.LayoutOf` | tradingview-rtl-text/popup.js:136-190 | what `generateImage` computes before painting: nothing exactly when `text.trim()` is empty, otherwise the display lines, the content width and the canvas size |
| `Layout.MaxMeasure` | tradingview-rtl-text/popup.js:171-177 | the running maximum is at least 0 and at least every line's measured width; it is 0 with no lines and otherwise equals some line's width |
| `Layout.MeasureWidest` | tradingview-rtl-text/popup.js:171-177 | the `Math.max` loop computes `MaxMeasure` of the display lines |
| `Layout.CollectWrappedLines` | tradingview-rtl-text/popup.js:157-164 | the `forEach` pushes exactly one `""` per blank input line and the `wrapTextLines` output of every other input line, in input order |
| `Layout.ComputeLayout` | tradingview-rtl-text/popup.js:136-190 | the steps of `generateImage` up to the canvas size compute exactly `LayoutOf(text, settings, measure)` |
| `Layout.LayoutIffNotBlank` | tradingview-rtl-text/popup.js:138-140 | a layout is produced exactly when the text is not whitespace-only |
| `Layout.NoWrapLinesAreInputLines` | tradingview-rtl-text/popup.js:165-168 | without wrapping the display lines are `text.split('\n')`, they join back to the text, and their number is the newline count plus one (blank lines kept) |
| `Layout.WrapDisplayLines` | tradingview-rtl-text/popup.js:152-164 | with wrapping there are at least as many display lines as input lines; every display line contains no space (this covers the `""` placeholder and single words) or is no wider than the effective width |
| `Layout.ContentWidthNoWrap` | tradingview-rtl-text/popup.js:171-177 | without wrapping the content width is at least every display line's width and equals one of them |
| `Layout.ContentWidthWrap` | tradingview-rtl-text/popup.js:171-182 | with wrapping the content width is `Math.min(widest line, effective width)`: at least `min(w, effective width)` for every line width w and equal to it for some line; so it is at most the effective width, at least every line that fits, and the canvas is never wider than `maxWidth` |
| `Layout.TextFrame` | tradingview-rtl-text/popup.js:185-225 | with b the border width when shown and 0 otherwise: the anchor `startX` is padding+b from the canvas's right edge and padding+b right of the content width; `startY` is padding+b; the line after the last would start padding+b above the bottom. So the width is content width + 2*(padding+b) and the height is line count * fontSize * lineHeight + 2*(padding+b) |
| `Layout.LineInsideInsets` | tradingview-rtl-text/popup.js:220-226 | on a canvas of n lines, with non-negative font size and line height, the top `startY + i*lineHeightPx` and the bottom of every line i < n lie between the top and bottom insets |
| `Layout.NegativeEffectiveWidth` | tradingview-rtl-text/popup.js:155-190 | with wrapping and a negative effective width, the content width is that negative value, the canvas is exactly `maxWidth` wide, and the text anchor falls left of the left inset |
| `Layout.LayoutSize` | tradingview-rtl-text/popup.js:172-190 | for non-blank text the layout is `SizedBySettings`: with b the border width when shown and 0 otherwise, the height is line count × fontSize × lineHeight + 2·padding + 2·b, and the width is the content width + 2·padding + 2·b |

## Left out

- DOM access, `localStorage` and `JSON.parse` persistence (`loadSettings`, `saveSettings`), `applySettingsToUI`, `updateWrapControlState` and the CSS strings of `updateTextareaStyle`. These are browser I/O and UI.
- The handlers that copy a control's value straight into a setting: font weight, colours, opacity, the checkboxes, the max-width slider and the saved text. Each is a plain assignment of a DOM value, with no rule to model.
- Canvas painting: `fillRect`, `strokeRect`, `fillText`, `toDataURL` and `toBlob`, and the `rgba(...)` style strings. These are graphics calls. Only the anchor coordinates are modelled.
- Text measurement, fonts and bidi shaping. `measure` is a given deterministic function; the font string set on the context is not modelled.
- The browser truncating `canvas.width` and `canvas.height` to integers, and IEEE floating point in `toFixed(1)` and `Math.max`/`Math.min`. All arithmetic is exact.
- Clipboard writes, download links, the preview modal, keyboard shortcuts and toasts. These are asynchronous I/O.
- The `try`/`catch` in `generateImage`. It only logs and shows a toast.
- `Wrap.WrapLinesGreedy`: stated only for lines whose `split(' ')` contains no empty word. With an empty word, a commit can start an empty accumulator that the next word replaces. The next line then does not begin with the word that caused the commit.
- `PopupSettings.Popup.ButtonClicked`: the eight click handlers are modelled as one handler taking the button as a parameter, because they differ only in setting, step and bounds.
- Strings are sequences of Unicode characters rather than UTF-16 code units. Every character that `trim` removes is a single code unit, so `trim` and `split` agree with this.

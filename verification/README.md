# Grid-based text placement of the slide generator

This project models the core of `slide_generator`, a program that draws a
slide as a PDF page laid out on a square grid. One grid cell is as wide and
as tall as the base font size (24 points), and the page is 32 by 18 cells.
Text is placed by grid column and grid row, counted from the top-left corner.
The `add_text` routine turns such a position into PDF coordinates, which
count points from the bottom-left corner. It puts the text baseline one font
size below the top of the row. It then appends a six-operation text section
to the page's operation list.

The model has five modules:

- `Wrappers`: an `Option` type for the optional arguments and for failure.
- `Pdf`: the PDF library's vocabulary. `FontId` and `Color` are abstract
  types, `Point` is a point, and `Op` holds the six page operations the
  generator emits.
- `Grid`: converts between grid cells and points (`CellsToPt`, `PtToCells`)
  and flips the y axis (`FlipY`).
- `Slide`: `FontStyle`, `DrawConfig` and `AddText`. `AddText` returns
  `None` when no font is registered for the resolved style, where the
  program panics. Its partner is `Decode`, which reads an emitted section
  back into grid terms. The two round-trip in both directions.
- `Page`: what the entry point does. It computes the page size, casts the
  grid height to the `u8` loop bound, and draws the eighteen lines of the
  slide (`DrawRows`, `DrawSlide`).

Points and `f32` values are modelled as exact reals.

Each call of `add_text` places one piece of text at the grid position its
caller gives.

## Model

| member | source | states |
|---|---|---|
| Slide.AddText | slide_generator/src/main.rs:34-77 | Fails exactly when the resolved style (given, else the configured default) has no registered font, and then appends nothing. On success, `ops` is kept as an unchanged prefix and exactly six operations follow, in the text-section order. For a non-zero base size, reading them back gives the text verbatim, the column and row, the size ratio (given, else 1), the colour (given, else the default) and the font registered for the style. |
| Slide.DecodeThenAddText | slide_generator/src/main.rs:65-76 | Any section that reads back as a placement is exactly what `add_text` appends for that placement. With `AddText`'s read-back, the two are mutually inverse. |
| Slide.AddTextDefaults | slide_generator/src/main.rs:45-47 | Each of the style, the ratio and the colour resolves on its own. If it is left out, the call behaves as if the configured style, 1.0 or the configured colour had been passed. If it is given, it is used unchanged. This holds for any mix of given and omitted arguments. |
| Slide.AddTextGeometry | slide_generator/src/main.rs:49-72 | The cursor is at x = column × base and y = page height − row × base − base × ratio. The font size is base × ratio. Size and text carry the font looked up for the style. The fill colour and the text are emitted unchanged. |
| Slide.CursorXIndependent | slide_generator/src/main.rs:55-58 | The cursor x depends only on the column and the base size. The row, the ratio, the page height, the style, the colour and the earlier operations do not affect it. |
| Slide.NextRowOneUnitLower | slide_generator/src/main.rs:59-63 | Moving the text one grid row down lowers its baseline by exactly one base unit. |
| Slide.TextInsidePage | slide_generator/src/main.rs:59-63 | Take a positive base and a page that is a whole number of grid rows high. If the text's rows lie on the page, its baseline is not below the bottom edge and its top (baseline + font size) is not above the top edge. |
| Grid.CellsToPt | slide_generator/src/main.rs:55-59 | Converting cells to points can be undone by dividing by the unit, whenever the unit is non-zero. |
| Grid.PtToCells | slide_generator/src/main.rs:55-59 | The inverse of the cell-to-point conversion: converting the result back gives the original points. |
| Page.PageSizeOf | slide_generator/src/main.rs:82-90 | The page's width and height in points, read back in grid cells, are the grid's width and height. |
| Page.FloatToU8 | slide_generator/src/main.rs:111 | Rust's `as u8` on a float is clamped to 0..255. Inside that range it truncates toward zero. |
| Page.LoopRows | slide_generator/src/main.rs:111 | The loop bound `(grid_height as u8) - 2` fails exactly when the grid height is below 2. For a height from 2 up to 255 it is the height truncated, minus 2. From 255 up, the cast saturates and the bound is 253. |
| Page.DrawRows | slide_generator/src/main.rs:111-118 | Drawing `count` lines at column 0 of rows 0, 1, … equals `count` successive `add_text` calls with default arguments. It keeps `ops` as a prefix and adds 6 × `count` operations. It fails exactly when there is a line to draw and no font for the default style. |
| Page.DrawSlide | slide_generator/src/main.rs:82-130 | The page is 768 by 432 points and holds 18 sections. Row `i` holds its line in the regular 24-point font at column 0. Its baseline is 408 − 24·i: 408 for row 0 and 0, the page bottom, for row 17. Every line lies within the page. |

## Left out

- `load_font` reads a font file and parses it with the PDF library (I/O and a foreign library). Font handles are parameters of `DrawSlide` instead.
- Building the PDF page, converting points to millimetres, saving the document, writing the file and printing warnings are PDF library calls and I/O.
- Floating point: `Pt` and `f32` are exact reals, so `f32` rounding is not modelled. `FloatToU8` ignores NaN and infinities, which the program never casts.
- The numbered labels of the drawing loop come from `format!`. `DrawRows` and `DrawSlide` take them as a function parameter `lineText`.
- Whether a line fits the page width depends on glyph metrics, which the program never computes.
- `FontId`, `Color` and `TextItem` keep the PDF library's internals hidden. `TextItem` has only the plain-text variant the program uses.
- Page.LoopRows: the `u8` underflow is modelled as the panic of a debug build. A release build would wrap around instead.
- The `learning` crate holds tutorial exercises unrelated to slide layout.

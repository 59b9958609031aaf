/** Placing one piece of text on a slide at a grid position (`add_text`). */
module Slide {
  import opened Wrappers
  import opened Pdf
  import opened Grid

  /** The font styles a slide can use. */
  datatype FontStyle = Regular | Bold | RegularIt | BoldIt

  /** Drawing settings shared by every piece of text on a page. */
  datatype DrawConfig = DrawConfig(
    pageHeightPt: real,
    baseFontSize: real,
    defaultFontStyle: FontStyle,
    defaultColor: Color)

  /** The fonts registered for the document, by style. */
  type FontMap = map<FontStyle, FontId>

  /** What a text section says once its points are read back as grid cells:
      the text, its grid column and row, its size ratio, colour and font. */
  datatype Placement = Placement(
    text: string,
    col: real,
    row: real,
    ratio: real,
    color: Color,
    font: FontId)

  /** The style a call uses: the one given, or the configured default. */
  function ResolvedStyle(style: Option<FontStyle>, config: DrawConfig): FontStyle
  {
    style.GetOr(config.defaultFontStyle)
  }

  /** The y coordinate of the text baseline for text whose top edge lies on
      grid row `row`: one font size below the top edge. */
  function Baseline(config: DrawConfig, row: real, ratio: real): real
  {
    FlipY(config.pageHeightPt, CellsToPt(row, config.baseFontSize))
      - CellsToPt(ratio, config.baseFontSize)
  }

  /** Appends to `ops` the operations that write `text` at grid column `x`,
      grid row `y`. Missing arguments default to the configured style, a size
      ratio of 1 and the configured colour. Fails, leaving no operations
      behind, when no font is registered for the resolved style. */
  function AddText(
    ops: seq<Op>, fonts: FontMap, config: DrawConfig, text: string,
    x: real, y: real,
    style: Option<FontStyle>, sizeRatio: Option<real>, color: Option<Color>
  ): (r: Option<seq<Op>>)
    ensures r.None? <==> ResolvedStyle(style, config) !in fonts
    ensures r.Some? ==> |r.value| == |ops| + 6 && r.value[..|ops|] == ops
    ensures r.Some? ==> IsTextSection(r.value[|ops|..])
    ensures r.Some? && config.baseFontSize != 0.0 ==>
      Decode(r.value[|ops|..], config)
        == Some(Placement(text, x, y, sizeRatio.GetOr(1.0),
                          color.GetOr(config.defaultColor),
                          fonts[ResolvedStyle(style, config)]))
  {
    var finalStyle := ResolvedStyle(style, config);
    var finalRatio := sizeRatio.GetOr(1.0);
    var finalColor := color.GetOr(config.defaultColor);
    if finalStyle !in fonts then None
    else
      var fontId := fonts[finalStyle];
      var fontSize := CellsToPt(finalRatio, config.baseFontSize);
      var xPt := CellsToPt(x, config.baseFontSize);
      var baselineY := Baseline(config, y, finalRatio);
      Some(ops + [
        StartTextSection,
        SetFillColor(finalColor),
        SetTextCursor(Point(xPt, baselineY)),
        SetFontSize(fontSize, fontId),
        WriteText([Text(text)], fontId),
        EndTextSection
      ])
  }

  /** A well-formed text section: the six operations in the order `add_text`
      emits them, one plain text item, and one font for size and text. */
  predicate IsTextSection(s: seq<Op>)
  {
    && |s| == 6
    && s[0].StartTextSection?
    && s[1].SetFillColor?
    && s[2].SetTextCursor?
    && s[3].SetFontSize?
    && s[4].WriteText?
    && s[5].EndTextSection?
    && |s[4].items| == 1
    && s[3].font == s[4].font
  }

  /** Reads a text section back into grid terms: the inverse of the point
      arithmetic in `AddText`. */
  function Decode(s: seq<Op>, config: DrawConfig): Option<Placement>
    requires config.baseFontSize != 0.0
  {
    if !IsTextSection(s) then None
    else
      var unit := config.baseFontSize;
      var size := s[3].size;
      var cursor := s[2].pos;
      Some(Placement(
        s[4].items[0].chars,
        PtToCells(cursor.x, unit),
        PtToCells(config.pageHeightPt - cursor.y - size, unit),
        PtToCells(size, unit),
        s[1].col,
        s[3].font))
  }

  /** Every section that reads back as a placement is exactly what `AddText`
      appends for that placement, given a font map that registers its font. */
  lemma DecodeThenAddText(
    ops: seq<Op>, s: seq<Op>, fonts: FontMap, config: DrawConfig,
    style: FontStyle, p: Placement)
    requires config.baseFontSize != 0.0
    requires Decode(s, config) == Some(p)
    requires style in fonts && fonts[style] == p.font
    ensures AddText(ops, fonts, config, p.text, p.col, p.row,
                    Some(style), Some(p.ratio), Some(p.color)) == Some(ops + s)
  {
    var unit := config.baseFontSize;
    var r := AddText(ops, fonts, config, p.text, p.col, p.row,
                     Some(style), Some(p.ratio), Some(p.color));
    var t := r.value[|ops|..];
    assert t[3].size == s[3].size;
    assert t[2].pos == s[2].pos;
    assert t[4].items == s[4].items;
    assert t == s;
  }

  /** Each argument left out behaves as if its default had been passed, and
      each argument given is used unchanged, independently of the others. */
  lemma AddTextDefaults(
    ops: seq<Op>, fonts: FontMap, config: DrawConfig, text: string, x: real, y: real,
    style: Option<FontStyle>, sizeRatio: Option<real>, color: Option<Color>)
    ensures AddText(ops, fonts, config, text, x, y, style, sizeRatio, color)
         == AddText(ops, fonts, config, text, x, y,
                    Some(style.GetOr(config.defaultFontStyle)),
                    Some(sizeRatio.GetOr(1.0)),
                    Some(color.GetOr(config.defaultColor)))
  {
  }

  /** The appended cursor sits at the grid column scaled by the base unit and
      at the baseline of the grid row; the font size is the ratio scaled by
      the base unit, and the fill colour and text are passed through as given. */
  lemma AddTextGeometry(
    ops: seq<Op>, fonts: FontMap, config: DrawConfig, text: string,
    x: real, y: real, ratio: real, style: FontStyle, color: Color)
    requires style in fonts
    ensures var r := AddText(ops, fonts, config, text, x, y, Some(style), Some(ratio), Some(color));
      && r.Some?
      && r.value[|ops| + 1] == SetFillColor(color)
      && r.value[|ops| + 2].pos.x == x * config.baseFontSize
      && r.value[|ops| + 2].pos.y
         == config.pageHeightPt - y * config.baseFontSize - config.baseFontSize * ratio
      && r.value[|ops| + 3] == SetFontSize(config.baseFontSize * ratio, fonts[style])
      && r.value[|ops| + 4] == WriteText([Text(text)], fonts[style])
  {
  }

  /** The cursor x depends on the column and the base unit only: not on the
      row, the size ratio, the page height or anything already in `ops`. */
  lemma CursorXIndependent(
    ops1: seq<Op>, ops2: seq<Op>, fonts: FontMap,
    config1: DrawConfig, config2: DrawConfig, text1: string, text2: string,
    x: real, y1: real, y2: real,
    style1: Option<FontStyle>, style2: Option<FontStyle>,
    ratio1: Option<real>, ratio2: Option<real>,
    color1: Option<Color>, color2: Option<Color>)
    requires config1.baseFontSize == config2.baseFontSize
    requires ResolvedStyle(style1, config1) in fonts
    requires ResolvedStyle(style2, config2) in fonts
    ensures var r1 := AddText(ops1, fonts, config1, text1, x, y1, style1, ratio1, color1);
            var r2 := AddText(ops2, fonts, config2, text2, x, y2, style2, ratio2, color2);
      && r1.Some? && r2.Some?
      && r1.value[|ops1| + 2].pos.x == r2.value[|ops2| + 2].pos.x
  {
  }

  /** One grid row further down puts the baseline exactly one base unit lower. */
  lemma NextRowOneUnitLower(
    ops: seq<Op>, fonts: FontMap, config: DrawConfig, text: string,
    x: real, y: real,
    style: Option<FontStyle>, ratio: Option<real>, color: Option<Color>)
    requires ResolvedStyle(style, config) in fonts
    ensures var r1 := AddText(ops, fonts, config, text, x, y, style, ratio, color);
            var r2 := AddText(ops, fonts, config, text, x, y + 1.0, style, ratio, color);
      && r1.Some? && r2.Some?
      && r2.value[|ops| + 2].pos.y == r1.value[|ops| + 2].pos.y - config.baseFontSize
  {
  }

  /** With a positive base unit, text of ratio `ratio` whose grid rows
      `y` to `y + ratio` lie on a page of `gridHeight` rows is drawn inside
      the page: its baseline is not below the bottom edge and its top is not
      above the top edge. */
  lemma TextInsidePage(
    ops: seq<Op>, fonts: FontMap, config: DrawConfig, text: string,
    x: real, y: real, ratio: real, gridHeight: real,
    style: FontStyle, color: Color)
    requires style in fonts
    requires config.baseFontSize > 0.0
    requires config.pageHeightPt == CellsToPt(gridHeight, config.baseFontSize)
    requires 0.0 <= y && 0.0 <= ratio && y + ratio <= gridHeight
    ensures var r := AddText(ops, fonts, config, text, x, y, Some(style), Some(ratio), Some(color));
      && r.Some?
      && 0.0 <= r.value[|ops| + 2].pos.y
      && r.value[|ops| + 2].pos.y + r.value[|ops| + 3].size <= config.pageHeightPt
  {
  }
}

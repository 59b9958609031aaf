/** The slide the generator's entry point draws: a 32 by 18 cell page with a
    24 point grid, one line of text on every row. */
module Page {
  import opened Wrappers
  import opened Pdf
  import opened Grid
  import opened Slide

  /** Side of one grid cell, and the base font size, in points. */
  const BaseFontSizePt: real := 24.0
  /** Page width and height in grid cells. */
  const GridWidth: real := 32.0
  const GridHeight: real := 18.0

  /** Physical page dimensions in points. */
  datatype PageSize = PageSize(width: real, height: real)

  /** The page dimensions of a grid of `gridWidth` by `gridHeight` cells. */
  function PageSizeOf(gridWidth: real, gridHeight: real, unit: real): (p: PageSize)
    ensures unit != 0.0 ==>
      PtToCells(p.width, unit) == gridWidth && PtToCells(p.height, unit) == gridHeight
  {
    PageSize(CellsToPt(gridWidth, unit), CellsToPt(gridHeight, unit))
  }

  /** Rust's saturating `as u8` cast of a (finite) float: truncation toward
      zero, clamped to 0..255. */
  function FloatToU8(v: real): (b: nat)
    ensures b <= 255
    ensures v <= 0.0 ==> b == 0
    ensures v >= 255.0 ==> b == 255
    ensures 0.0 <= v < 255.0 ==> b as real <= v < b as real + 1.0
  {
    if v <= 0.0 then 0 else if v >= 255.0 then 255 else v.Floor
  }

  /** The number of rows the drawing loop fills, `(grid_height as u8) - 2`;
      `None` when that `u8` subtraction underflows, which aborts a debug build. */
  function LoopRows(gridHeight: real): (n: Option<nat>)
    ensures n.None? <==> gridHeight < 2.0
    ensures 2.0 <= gridHeight < 255.0 ==> n.Some? && n.value == gridHeight.Floor - 2
    ensures gridHeight >= 255.0 ==> n == Some(253)
  {
    var h := FloatToU8(gridHeight);
    if h < 2 then None else Some(h - 2)
  }

  /** The text of the second to last row: 31 hiragana "a" and one "i". */
  function Row16Text(): string
  {
    seq(31, _ => 'あ') + ['い']
  }

  /** The text of the last row: 63 letters "a" and one "i". */
  function Row17Text(): string
  {
    seq(63, _ => 'a') + ['i']
  }

  /** The configuration the entry point draws with. */
  function SlideConfig(black: Color): DrawConfig
  {
    DrawConfig(PageSizeOf(GridWidth, GridHeight, BaseFontSizePt).height,
               BaseFontSizePt, Regular, black)
  }

  /** The `i`-th six-operation section of `ops`. */
  function SectionAt(ops: seq<Op>, i: nat): seq<Op>
    requires 6 * i + 6 <= |ops|
  {
    ops[6 * i .. 6 * i + 6]
  }

  /** Draws `count` lines with default style, ratio and colour, line `i`
      (text `lineText(i)`) at column 0 of row `i`, appending to `ops`. The result
      is the same as `count` successive `AddText` calls; it fails exactly when
      there is a line to draw and no font for the default style. */
  method DrawRows(
    ops: seq<Op>, fonts: FontMap, config: DrawConfig, lineText: nat -> string, count: nat)
    returns (r: Option<seq<Op>>)
    ensures r.None? <==> count > 0 && config.defaultFontStyle !in fonts
    ensures r.Some? ==> |r.value| == |ops| + 6 * count && r.value[..|ops|] == ops
    ensures r.Some? ==> forall i :: 0 <= i < count ==>
      AddText(r.value[..|ops| + 6 * i], fonts, config, lineText(i), 0.0, i as real, None, None, None)
        == Some(r.value[..|ops| + 6 * i + 6])
  {
    var acc := ops;
    var i := 0;
    while i < count
      invariant 0 <= i <= count
      invariant |acc| == |ops| + 6 * i
      invariant acc[..|ops|] == ops
      invariant i > 0 ==> config.defaultFontStyle in fonts
      invariant forall k :: 0 <= k < i ==>
        AddText(acc[..|ops| + 6 * k], fonts, config, lineText(k), 0.0, k as real, None, None, None)
          == Some(acc[..|ops| + 6 * k + 6])
    {
      var next := AddText(acc, fonts, config, lineText(i), 0.0, i as real, None, None, None);
      if next.None? {
        return None;
      }
      var prev := acc;
      acc := next.value;
      assert acc[..|prev|] == prev;
      forall k | 0 <= k < i
        ensures acc[..|ops| + 6 * k] == prev[..|ops| + 6 * k]
        ensures acc[..|ops| + 6 * k + 6] == prev[..|ops| + 6 * k + 6]
      {
      }
      assert acc[..|ops| + 6 * i] == prev;
      assert acc[..|ops| + 6 * i + 6] == acc;
      i := i + 1;
    }
    return Some(acc);
  }

  /** The text of row `i` of the slide: the loop's line for the first rows,
      then the two fixed lines. */
  function SlideText(lineText: nat -> string, i: nat): string
  {
    if i < 16 then lineText(i) else if i == 16 then Row16Text() else Row17Text()
  }

  /** Draws the slide of the entry point: a 768 by 432 point page holding
      eighteen lines, line `i` in the regular font at column 0 of row `i`,
      with baselines stepping down from 408 points to the bottom edge.
      `lineText` stands for the numbered labels of the drawing loop. */
  method DrawSlide(regular: FontId, bold: FontId, black: Color, lineText: nat -> string)
    returns (size: PageSize, ops: seq<Op>)
    ensures size == PageSize(768.0, 432.0)
    ensures |ops| == 6 * 18
    ensures forall i: nat :: i < 18 ==>
      Decode(SectionAt(ops, i), SlideConfig(black))
        == Some(Placement(SlideText(lineText, i), 0.0, i as real, 1.0, black, regular))
    ensures forall i: nat :: i < 18 ==>
      SectionAt(ops, i)[2] == SetTextCursor(Point(0.0, 408.0 - 24.0 * i as real))
    ensures forall i: nat :: i < 18 ==> SectionAt(ops, i)[3] == SetFontSize(24.0, regular)
    ensures forall i: nat :: i < 18 ==>
      0.0 <= SectionAt(ops, i)[2].pos.y
      && SectionAt(ops, i)[2].pos.y + SectionAt(ops, i)[3].size <= size.height
  {
    var fonts: FontMap := map[Regular := regular, Bold := bold];
    var config := SlideConfig(black);
    size := PageSizeOf(GridWidth, GridHeight, BaseFontSizePt);
    var rows := LoopRows(GridHeight);
    assert rows == Some(16);
    var drawn := DrawRows([], fonts, config, lineText, rows.value);
    var with16 := AddText(drawn.value, fonts, config, Row16Text(), 0.0, 16.0, None, None, None);
    var with17 := AddText(with16.value, fonts, config, Row17Text(), 0.0, 17.0, None, None, None);
    ops := with17.value;

    assert ops[..96] == drawn.value;
    assert ops[..102] == with16.value;
    forall i: nat | i < 18
      ensures AddText(ops[..6 * i], fonts, config, SlideText(lineText, i), 0.0, i as real, None, None, None)
                == Some(ops[..6 * i + 6])
    {
      if i < 16 {
        assert ops[..6 * i] == drawn.value[..6 * i];
        assert ops[..6 * i + 6] == drawn.value[..6 * i + 6];
      } else if i == 16 {
        assert ops[..6 * i] == drawn.value;
      } else {
        assert ops[..6 * i] == with16.value;
        assert ops[..6 * i + 6] == ops;
      }
    }
    forall i: nat | i < 18
      ensures Decode(SectionAt(ops, i), config)
                == Some(Placement(SlideText(lineText, i), 0.0, i as real, 1.0, black, regular))
      ensures SectionAt(ops, i)[2] == SetTextCursor(Point(0.0, 408.0 - 24.0 * i as real))
      ensures SectionAt(ops, i)[3] == SetFontSize(24.0, regular)
    {
      var before := ops[..6 * i];
      var text := SlideText(lineText, i);
      assert ops[..6 * i + 6][6 * i..] == SectionAt(ops, i);
      AddTextDefaults(before, fonts, config, text, 0.0, i as real, None, None, None);
      AddTextGeometry(before, fonts, config, text, 0.0, i as real, 1.0, Regular, black);
    }
  }
}

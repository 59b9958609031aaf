/** The grid coordinate system of a slide: the page is a grid of square cells
    whose side is the base font size, with the origin at the top-left corner,
    while the page itself measures points from the bottom-left corner. */
module Grid {

  /** The length in points of `cells` grid cells of side `unit` points.
      Used for columns, rows, font sizes and page dimensions alike. */
  function CellsToPt(cells: real, unit: real): (pt: real)
    ensures unit != 0.0 ==> pt / unit == cells
  {
    cells * unit
  }

  /** The number of grid cells that `pt` points span. */
  function PtToCells(pt: real, unit: real): (cells: real)
    requires unit != 0.0
    ensures CellsToPt(cells, unit) == pt
  {
    pt / unit
  }

  /** Converts a distance from the top of the page into a distance from the
      bottom of the page. */
  function FlipY(pageHeight: real, fromTop: real): real
  {
    pageHeight - fromTop
  }
}

/** The part of the PDF library's vocabulary that the slide generator uses:
    handles it receives from the library and the page operations it builds. */
module Pdf {

  /** Handle of a font registered with a PDF document. */
  type FontId(==)

  /** A fill colour; the generator only passes colours through. */
  type Color(==)

  /** A position in points, origin at the bottom-left corner of the page. */
  datatype Point = Point(x: real, y: real)

  /** A piece of text to write; the generator only ever writes plain text. */
  datatype TextItem = Text(chars: string)

  /** The page operations the generator emits. */
  datatype Op =
    | StartTextSection
    | SetFillColor(col: Color)
    | SetTextCursor(pos: Point)
    | SetFontSize(size: real, font: FontId)
    | WriteText(items: seq<TextItem>, font: FontId)
    | EndTextSection
}

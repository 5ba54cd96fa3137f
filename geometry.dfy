/** Positioned text and rectangles.  Coordinates are document units; the source
    holds them as floats, here they are reals (every operation on them is a
    comparison, a sum or an average). */
module Geometry {

  /** One positioned word, as the document parser reports it: the source's
      `TextElement` and its `[x0, y0, x1, y1, text]` word tuple. */
  datatype Token = Token(text: string, x0: real, y0: real, x1: real, y1: real) {
    function CenterX(): real { (x0 + x1) / 2.0 }
    function CenterY(): real { (y0 + y1) / 2.0 }
  }

  /** A rectangle or a line segment `[x0, y0, x1, y1]`. */
  datatype Rect = Rect(x0: real, y0: real, x1: real, y1: real)

  /** The point lies in `r` widened by `tol` on every side, boundary included. */
  predicate ContainsPoint(r: Rect, x: real, y: real, tol: real) {
    r.x0 - tol <= x <= r.x1 + tol && r.y0 - tol <= y <= r.y1 + tol
  }
}

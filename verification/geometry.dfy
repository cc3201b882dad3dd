/** Rectangles in the list's named coordinate space (a CGRect with CGFloat
    coordinates, modelled with `real`).

    A rectangle is stored raw, as an origin and a size that may be negative;
    the accessors MinX, MinY, Width and Height are the standardized ones
    (smallest edge, absolute size), as the platform's rectangle type defines
    them.  The zero rectangle means "not yet measured". */
module Geometry {

  datatype Rect = Rect(x: real, y: real, w: real, h: real)

  const Zero: Rect := Rect(0.0, 0.0, 0.0, 0.0)

  function Abs(v: real): (r: real)
    ensures r >= 0.0 && (r == v || r == -v)
  {
    if v < 0.0 then -v else v
  }

  function Max(a: real, b: real): (r: real)
    ensures r >= a && r >= b && (r == a || r == b)
  {
    if a > b then a else b
  }

  /** Smallest x of the rectangle, whatever the sign of its width. */
  function MinX(r: Rect): (m: real)
    ensures m <= r.x && m <= r.x + r.w && (m == r.x || m == r.x + r.w)
  {
    if r.w < 0.0 then r.x + r.w else r.x
  }

  /** Smallest y of the rectangle, whatever the sign of its height. */
  function MinY(r: Rect): (m: real)
    ensures m <= r.y && m <= r.y + r.h && (m == r.y || m == r.y + r.h)
  {
    if r.h < 0.0 then r.y + r.h else r.y
  }

  function Width(r: Rect): (v: real)
    ensures v >= 0.0 && (v == r.w || v == -r.w)
  {
    Abs(r.w)
  }

  function Height(r: Rect): (v: real)
    ensures v >= 0.0 && (v == r.h || v == -r.h)
  {
    Abs(r.h)
  }

  /** A rectangle whose size is not negative: its accessors read the stored fields. */
  predicate Standardized(r: Rect)
  {
    r.w >= 0.0 && r.h >= 0.0
  }
}

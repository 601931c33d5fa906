/**
  Box arithmetic of the detector: YOLO reports a box by its centre and size,
  the script turns it into left/top/width/height and then into corners.
 */
module Geometry {

  /** A box in corner form `[x1, y1, x2, y2]`, the form the tracker stores. */
  datatype Box = Box(x1: int, y1: int, x2: int, y2: int)

  /** A box in left/top/width/height form, as appended to `boxes`. */
  datatype Rect = Rect(x: int, y: int, w: int, h: int)

  /**
    `int(center - size / 2)`: Python's true division followed by truncation
    toward zero (Dafny's `/` on `int` is Euclidean and would round a negative
    edge down instead). The result is the exact edge `center - size/2`
    rounded toward zero.
   */
  function Edge(center: int, size: int): (e: int)
    ensures 2 * center - size >= 0 ==> 0 <= 2 * e <= 2 * center - size <= 2 * e + 1
    ensures 2 * center - size < 0 ==> 2 * e - 1 <= 2 * center - size <= 2 * e <= 0
  {
    var twice := 2 * center - size;
    if twice >= 0 then twice / 2 else -((-twice) / 2)
  }

  /**
    The rectangle of a YOLO box whose centre and size are already in pixels:
    same size, and its own centre within half a pixel of the reported one.
   */
  function FromCenter(centerX: int, centerY: int, w: int, h: int): (r: Rect)
    ensures r.w == w && r.h == h
    ensures 2 * centerX - 1 <= 2 * r.x + r.w <= 2 * centerX + 1
    ensures 2 * centerY - 1 <= 2 * r.y + r.h <= 2 * centerY + 1
  {
    Rect(Edge(centerX, w), Edge(centerY, h), w, h)
  }

  /** `[x, y, x + w, y + h]`. */
  function Corners(r: Rect): (b: Box)
    ensures b.x1 == r.x && b.y1 == r.y
    ensures b.x2 - b.x1 == r.w && b.y2 - b.y1 == r.h
  {
    Box(r.x, r.y, r.x + r.w, r.y + r.h)
  }

  /** The inverse of `Corners`: left/top and the two extents. */
  function ToRect(b: Box): (r: Rect)
    ensures Corners(r) == b
  {
    Rect(b.x1, b.y1, b.x2 - b.x1, b.y2 - b.y1)
  }

  /** Converting to corners loses nothing: the rectangle can be read back. */
  lemma CornersRoundTrip(r: Rect)
    ensures ToRect(Corners(r)) == r
  {
  }
}

/** Integer rectangles with an "undefined" case, as galsim.BoundsI is used by
    the image layer: a box [xmin, xmax] x [ymin, ymax] that holds at least one
    pixel, or Undefined. Intersection (`&`), inclusion (`includes`) and the
    box of an image with a given origin and size. */
module Bounds {

  datatype BoundsI = Undefined | Box(xmin: int, xmax: int, ymin: int, ymax: int)

  /** A Box always holds at least one pixel; empty boxes are Undefined. */
  type Bounds = b: BoundsI | b.Undefined? || (b.xmin <= b.xmax && b.ymin <= b.ymax)
    witness Undefined

  predicate IsDefined(b: Bounds) { b.Box? }

  predicate Contains(b: Bounds, x: int, y: int) {
    b.Box? && b.xmin <= x <= b.xmax && b.ymin <= y <= b.ymax
  }

  /** BoundsI(xmin, xmax, ymin, ymax): undefined when either range is empty. */
  function Make(xmin: int, xmax: int, ymin: int, ymax: int): (r: Bounds)
    ensures r.Box? <==> xmin <= xmax && ymin <= ymax
    ensures forall x, y :: Contains(r, x, y) <==> xmin <= x <= xmax && ymin <= y <= ymax
  {
    if xmin <= xmax && ymin <= ymax then Box(xmin, xmax, ymin, ymax) else Undefined
  }

  /** The bounds of an image of xsize by ysize pixels whose first pixel is (x0, y0). */
  function OfSize(x0: int, y0: int, xsize: int, ysize: int): (r: Bounds)
    ensures r.Box? <==> xsize >= 1 && ysize >= 1
    ensures forall x, y :: Contains(r, x, y) <==> x0 <= x < x0 + xsize && y0 <= y < y0 + ysize
  {
    Make(x0, x0 + xsize - 1, y0, y0 + ysize - 1)
  }

  function Max(a: int, b: int): int { if a < b then b else a }
  function Min(a: int, b: int): int { if a < b then a else b }

  /** `a & b`: the pixels common to both; undefined when either is undefined
      or they do not overlap. */
  function Intersect(a: Bounds, b: Bounds): (r: Bounds)
    ensures forall x, y :: Contains(r, x, y) <==> Contains(a, x, y) && Contains(b, x, y)
    ensures r.Box? ==> a.Box? && b.Box?
  {
    if a.Box? && b.Box? then
      Make(Max(a.xmin, b.xmin), Min(a.xmax, b.xmax), Max(a.ymin, b.ymin), Min(a.ymax, b.ymax))
    else Undefined
  }

  /** `a.includes(b)`: both defined and b lies within a. */
  predicate Includes(a: Bounds, b: Bounds) {
    a.Box? && b.Box? &&
    a.xmin <= b.xmin && b.xmax <= a.xmax && a.ymin <= b.ymin && b.ymax <= a.ymax
  }

  /** Inclusion means every pixel of the (defined) inner box is a pixel of the outer one. */
  lemma IncludesIffEveryPixel(a: Bounds, b: Bounds)
    requires b.Box?
    ensures Includes(a, b) <==> forall x, y :: Contains(b, x, y) ==> Contains(a, x, y)
  {
    if forall x, y :: Contains(b, x, y) ==> Contains(a, x, y) {
      assert Contains(a, b.xmin, b.ymin);
      assert Contains(a, b.xmax, b.ymax);
    }
  }

  /** Intersecting with a box that includes b leaves b unchanged. */
  lemma IntersectIncluded(a: Bounds, b: Bounds)
    requires Includes(a, b)
    ensures Intersect(b, a) == b
  {
  }
}

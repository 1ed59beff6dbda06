/** The full image the compositing and noise steps write into: a block of
    real pixel values with integer bounds, as galsim.ImageF is used by
    galsim/config/image.py. Only the two operations the core performs on
    it are modelled: `image[b] += f` over a sub-box, and reading a pixel. */
module Canvas {
  import opened Bounds

  /** An image of xsize by ysize pixels whose first pixel is (xmin, ymin);
      pixel (x, y) is stored at pix[y - ymin, x - xmin]. */
  class Image {
    const xmin: int
    const ymin: int
    const xsize: nat
    const ysize: nat
    const pix: array2<real>

    ghost predicate Valid()
      reads this
    {
      pix.Length0 == ysize && pix.Length1 == xsize
    }

    function ImageBounds(): (b: Bounds)
      reads this
      ensures forall x, y :: Contains(b, x, y) <==> xmin <= x < xmin + xsize && ymin <= y < ymin + ysize
    {
      OfSize(xmin, ymin, xsize, ysize)
    }

    /** The value of pixel (x, y). */
    function At(x: int, y: int): real
      reads this, pix
      requires Valid() && Contains(ImageBounds(), x, y)
    {
      pix[y - ymin, x - xmin]
    }

    /** ImageF(xsize, ysize) with its origin set, then setZero(). */
    constructor (x0: int, y0: int, xsize: nat, ysize: nat)
      ensures Valid() && fresh(pix)
      ensures this.xmin == x0 && this.ymin == y0 && this.xsize == xsize && this.ysize == ysize
      ensures forall x, y :: Contains(ImageBounds(), x, y) ==> At(x, y) == 0.0
    {
      this.xmin := x0;
      this.ymin := y0;
      this.xsize := xsize;
      this.ysize := ysize;
      pix := new real[ysize, xsize]((i, j) => 0.0);
    }

    /** `image[b] += f`: every pixel of b (which lies in the image) gains
        f at that pixel; no other pixel changes. */
    method AddRegion(b: Bounds, f: (int, int) -> real)
      requires Valid() && (b.Box? ==> Includes(ImageBounds(), b))
      modifies pix
      ensures forall x, y :: Contains(ImageBounds(), x, y) ==>
                At(x, y) == old(At(x, y)) + (if Contains(b, x, y) then f(x, y) else 0.0)
    {
      if b.Undefined? {
        return;
      }
      var y := b.ymin;
      while y <= b.ymax
        invariant b.ymin <= y <= b.ymax + 1
        invariant forall x', y' :: Contains(ImageBounds(), x', y') ==>
                    At(x', y') == old(At(x', y')) + (if Contains(b, x', y') && y' < y then f(x', y') else 0.0)
      {
        AddRow(b.xmin, b.xmax, y, f);
        y := y + 1;
      }
    }

    /** One row of AddRegion: pixels xlo..xhi of row y gain f. */
    method AddRow(xlo: int, xhi: int, y: int, f: (int, int) -> real)
      requires Valid() && xmin <= xlo <= xhi + 1 && xhi < xmin + xsize && ymin <= y < ymin + ysize
      modifies pix
      ensures forall x', y' :: Contains(ImageBounds(), x', y') ==>
                At(x', y') == old(At(x', y')) + (if y' == y && xlo <= x' <= xhi then f(x', y') else 0.0)
    {
      var x := xlo;
      while x <= xhi
        invariant xlo <= x <= xhi + 1
        invariant forall x', y' :: Contains(ImageBounds(), x', y') ==>
                    At(x', y') == old(At(x', y')) + (if y' == y && xlo <= x' < x then f(x', y') else 0.0)
      {
        pix[y - ymin, x - xmin] := pix[y - ymin, x - xmin] + f(x, y);
        x := x + 1;
      }
    }

    /** The largest pixel value (numpy.max of the array) and a pixel that has it. */
    method Max() returns (m: real, wx: int, wy: int)
      requires Valid() && xsize > 0 && ysize > 0
      ensures Contains(ImageBounds(), wx, wy) && At(wx, wy) == m
      ensures forall x, y :: Contains(ImageBounds(), x, y) ==> At(x, y) <= m
    {
      m, wx, wy := At(xmin, ymin), xmin, ymin;
      var y := ymin;
      while y < ymin + ysize
        invariant ymin <= y <= ymin + ysize
        invariant Contains(ImageBounds(), wx, wy) && At(wx, wy) == m
        invariant forall x', y' :: Contains(ImageBounds(), x', y') && y' < y ==> At(x', y') <= m
      {
        var x := xmin;
        while x < xmin + xsize
          invariant xmin <= x <= xmin + xsize
          invariant Contains(ImageBounds(), wx, wy) && At(wx, wy) == m
          invariant forall x', y' :: Contains(ImageBounds(), x', y') && (y' < y || (y' == y && x' < x)) ==> At(x', y') <= m
        {
          if At(x, y) > m {
            m, wx, wy := At(x, y), x, y;
          }
          x := x + 1;
        }
        y := y + 1;
      }
    }

    /** Adds to every pixel g of that pixel and the value `src` has there;
        `src` has the same bounds and is another image. */
    method AddPointwise(src: Image, g: (int, int, real) -> real)
      requires Valid() && src.Valid() && src.pix != pix
      requires src.xmin == xmin && src.ymin == ymin && src.xsize == xsize && src.ysize == ysize
      modifies pix
      ensures forall x, y :: Contains(ImageBounds(), x, y) ==>
                At(x, y) == old(At(x, y)) + g(x, y, src.At(x, y))
    {
      var y := ymin;
      while y < ymin + ysize
        invariant ymin <= y <= ymin + ysize
        invariant forall x', y' :: Contains(ImageBounds(), x', y') ==>
                    At(x', y') == old(At(x', y')) + (if y' < y then g(x', y', src.At(x', y')) else 0.0)
      {
        var x := xmin;
        while x < xmin + xsize
          invariant xmin <= x <= xmin + xsize
          invariant forall x', y' :: Contains(ImageBounds(), x', y') ==>
                      At(x', y') == old(At(x', y')) +
                        (if y' < y || (y' == y && x' < x) then g(x', y', src.At(x', y')) else 0.0)
        {
          pix[y - ymin, x - xmin] := pix[y - ymin, x - xmin] + g(x, y, src.At(x, y));
          x := x + 1;
        }
        y := y + 1;
      }
    }
  }
}

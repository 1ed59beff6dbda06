/** FlattenNoiseVariance (galsim/config/image.py lines 761-788): when the
    stamps were whitened, each carries its own noise variance; the full
    image is brought up to one common variance by adding, at each pixel,
    Gaussian noise whose variance is the pixel's shortfall. The Gaussian
    draw is the oracle `gauss(x, y, v)`: the noise added at pixel (x, y)
    when its variance is v. */
module Noise {
  import opened Common
  import opened Bounds
  import opened Canvas

  /** max() of a non-empty sequence. */
  function SeqMax(vs: seq<real>): (m: real)
    requires |vs| > 0
    ensures forall k :: 0 <= k < |vs| ==> vs[k] <= m
    ensures exists k :: 0 <= k < |vs| && vs[k] == m
  {
    if |vs| == 1 then vs[0]
    else
      var m' := SeqMax(vs[..|vs| - 1]);
      assert forall k :: 0 <= k < |vs| - 1 ==> vs[..|vs| - 1][k] == vs[k];
      if vs[|vs| - 1] > m' then vs[|vs| - 1] else m'
  }

  /** The noise variance the stamps leave at pixel (x, y): the sum of the
      variances of the stamps whose bounds contain it. */
  function VarSum(bounds: seq<Bounds>, vars: seq<real>, x: int, y: int): real
    requires |bounds| == |vars|
  {
    if bounds == [] then 0.0
    else
      var n := |bounds| - 1;
      VarSum(bounds[..n], vars[..n], x, y) + (if Contains(bounds[n], x, y) then vars[n] else 0.0)
  }

  /** m is the largest variance over the pixels of the image, and some
      pixel has it. */
  ghost predicate IsMaxVar(image: Bounds, bounds: seq<Bounds>, vars: seq<real>, m: real)
    requires |bounds| == |vars|
  {
    (forall x, y :: Contains(image, x, y) ==> VarSum(bounds, vars, x, y) <= m) &&
    (exists x, y :: Contains(image, x, y) && VarSum(bounds, vars, x, y) == m)
  }

  /** With non-negative variances, a pixel has at least the variance of each
      stamp that covers it. */
  lemma {:induction false} VarSumAtLeast(bounds: seq<Bounds>, vars: seq<real>, x: int, y: int, k: nat)
    requires |bounds| == |vars| && k < |bounds| && Contains(bounds[k], x, y)
    requires forall m :: 0 <= m < |vars| ==> vars[m] >= 0.0
    ensures VarSum(bounds, vars, x, y) >= vars[k]
  {
    var n := |bounds| - 1;
    if k < n {
      VarSumAtLeast(bounds[..n], vars[..n], x, y, k);
    } else {
      VarSumNonneg(bounds[..n], vars[..n], x, y);
    }
  }

  lemma {:induction false} VarSumNonneg(bounds: seq<Bounds>, vars: seq<real>, x: int, y: int)
    requires |bounds| == |vars|
    requires forall m :: 0 <= m < |vars| ==> vars[m] >= 0.0
    ensures VarSum(bounds, vars, x, y) >= 0.0
  {
    if bounds != [] {
      var n := |bounds| - 1;
      VarSumNonneg(bounds[..n], vars[..n], x, y);
    }
  }

  /** A pixel that no stamp covers has variance 0. */
  lemma {:induction false} VarSumUncovered(bounds: seq<Bounds>, vars: seq<real>, x: int, y: int)
    requires |bounds| == |vars|
    requires forall k :: 0 <= k < |bounds| ==> !Contains(bounds[k], x, y)
    ensures VarSum(bounds, vars, x, y) == 0.0
  {
    if bounds != [] {
      var n := |bounds| - 1;
      VarSumUncovered(bounds[..n], vars[..n], x, y);
    }
  }

  /** The flat level is the highest variance of any pixel: every deficit is
      non-negative and brings its pixel exactly to that level; with
      non-negative variances it is at least the variance of every stamp that
      reaches the image. */
  lemma FlatLevel(image: Bounds, bounds: seq<Bounds>, vars: seq<real>, m: real)
    requires |bounds| == |vars| && IsMaxVar(image, bounds, vars, m)
    ensures forall x, y :: Contains(image, x, y) ==>
              m - VarSum(bounds, vars, x, y) >= 0.0 && VarSum(bounds, vars, x, y) + (m - VarSum(bounds, vars, x, y)) == m
    ensures (forall k :: 0 <= k < |vars| ==> vars[k] >= 0.0) ==>
              forall k :: 0 <= k < |bounds| && Intersect(bounds[k], image).Box? ==> vars[k] <= m
  {
    if forall k :: 0 <= k < |vars| ==> vars[k] >= 0.0 {
      forall k | 0 <= k < |bounds| && Intersect(bounds[k], image).Box?
        ensures vars[k] <= m
      {
        var b := Intersect(bounds[k], image);
        assert Contains(b, b.xmin, b.ymin);
        VarSumAtLeast(bounds, vars, b.xmin, b.ymin, k);
      }
    }
  }

  /** Lines 774-776: noise_image[b] += current_vars[k] over each stamp's
      overlap b with the image. */
  method AccumulateVariance(noise: Image, bounds: seq<Bounds>, vars: seq<real>)
    requires noise.Valid() && |bounds| == |vars|
    modifies noise.pix
    ensures forall x, y :: Contains(noise.ImageBounds(), x, y) ==>
              noise.At(x, y) == old(noise.At(x, y)) + VarSum(bounds, vars, x, y)
  {
    var k := 0;
    while k < |bounds|
      invariant k <= |bounds|
      invariant forall x, y :: Contains(noise.ImageBounds(), x, y) ==>
                  noise.At(x, y) == old(noise.At(x, y)) + VarSum(bounds[..k], vars[..k], x, y)
    {
      assert bounds[..k + 1][..k] == bounds[..k] && vars[..k + 1][..k] == vars[..k];
      var b := Intersect(bounds[k], noise.ImageBounds());
      var v := vars[k];
      if b.Box? {
        noise.AddRegion(b, (x: int, y: int) => v);
      }
      k := k + 1;
    }
    assert bounds[..k] == bounds && vars[..k] == vars;
  }

  /** FlattenNoiseVariance. `bounds` are the stamps' bounds and `vars`
      their noise variances. max() of no variances, or of the pixels of an
      image with none, raises. When no stamp has a positive variance the
      image is left alone and max(vars) returned; otherwise the variance map
      is accumulated, its maximum taken, and noise of variance
      maximum - map added at each pixel. */
  method FlattenNoiseVariance(image: Image, bounds: seq<Bounds>, vars: seq<real>, gauss: (int, int, real) -> real)
    returns (r: Result<real>)
    requires image.Valid() && |bounds| == |vars|
    modifies image.pix
    ensures vars == [] ==> r == Err(EmptyMax)
    ensures vars != [] && SeqMax(vars) <= 0.0 ==> r == Ok(SeqMax(vars))
    ensures vars != [] && SeqMax(vars) > 0.0 ==> (r.Err? <==> image.xsize == 0 || image.ysize == 0)
    ensures r.Err? ==> r.error == EmptyMax
    ensures r.Err? || SeqMax(vars) <= 0.0 ==>
              forall x, y :: Contains(image.ImageBounds(), x, y) ==> image.At(x, y) == old(image.At(x, y))
    ensures r.Ok? && SeqMax(vars) > 0.0 ==>
              IsMaxVar(image.ImageBounds(), bounds, vars, r.value) &&
              forall x, y :: Contains(image.ImageBounds(), x, y) ==>
                image.At(x, y) == old(image.At(x, y)) + gauss(x, y, r.value - VarSum(bounds, vars, x, y))
  {
    if vars == [] {
      return Err(EmptyMax);
    }
    var maxVar := SeqMax(vars);
    if maxVar <= 0.0 {
      return Ok(maxVar);
    }
    if image.xsize == 0 || image.ysize == 0 {
      return Err(EmptyMax);
    }
    var m := AddFlatNoise(image, bounds, vars, gauss);
    return Ok(m);
  }

  /** Lines 774-787 on an image with pixels: the variance map is
      accumulated, its maximum m taken, and noise of variance m - map added
      at each pixel. */
  method AddFlatNoise(image: Image, bounds: seq<Bounds>, vars: seq<real>, gauss: (int, int, real) -> real)
    returns (m: real)
    requires image.Valid() && |bounds| == |vars| && image.xsize > 0 && image.ysize > 0
    modifies image.pix
    ensures IsMaxVar(image.ImageBounds(), bounds, vars, m)
    ensures forall x, y :: Contains(image.ImageBounds(), x, y) ==>
              image.At(x, y) == old(image.At(x, y)) + gauss(x, y, m - VarSum(bounds, vars, x, y))
  {
    var noise;
    noise, m := VarianceMap(image, bounds, vars);
    var level := m;
    image.AddPointwise(noise, (x: int, y: int, v: real) => gauss(x, y, level - v));
  }

  /** Lines 774-779: noise_image, the variance each pixel has, and its
      maximum. */
  method VarianceMap(image: Image, bounds: seq<Bounds>, vars: seq<real>) returns (noise: Image, m: real)
    requires image.Valid() && |bounds| == |vars| && image.xsize > 0 && image.ysize > 0
    ensures fresh(noise) && fresh(noise.pix) && noise.Valid()
    ensures noise.xmin == image.xmin && noise.ymin == image.ymin && noise.xsize == image.xsize && noise.ysize == image.ysize
    ensures forall x, y :: Contains(noise.ImageBounds(), x, y) ==> noise.At(x, y) == VarSum(bounds, vars, x, y)
    ensures IsMaxVar(image.ImageBounds(), bounds, vars, m)
  {
    noise := new Image(image.xmin, image.ymin, image.xsize, image.ysize);
    AccumulateVariance(noise, bounds, vars);
    var wx, wy;
    m, wx, wy := noise.Max();
  }
}

/** The part of the config dict the image layer reads and writes, and the
    per-image steps that write it: SetupConfigImageNum,
    SetupConfigImageSize, the setup half of BuildImage (type dispatch,
    per-type setup, size setup) and BuildTiledImage / BuildScatteredImage
    (galsim/config/image.py).

    Drawing the stamps (BuildStamps) is the oracle `buildStamps`, given the
    positions the build step wrote into the config; it returns each stamp
    with its noise variance. The Gaussian draw is the oracle `gauss`. The
    WCS (BuildWCS) and the input / extra-output hooks are not modelled. */
module Config {
  import opened Common
  import opened Bounds
  import opened Shuffle
  import opened ImageSetup
  import opened Canvas
  import opened Compose
  import opened Noise

  /** config['image']: absent, something other than a dict, or a dict. */
  datatype ImageEntry = Missing | NotDict | Dict(sec: ImageSection)

  /** What a build step writes as image.image_pos: a list of tile centres,
      or a uniform draw over a range of pixels. */
  datatype PosSpec = Grid(xs: seq<real>, ys: seq<real>) | Uniform(range: Bounds)

  /** draw_method defaults to 'auto' and type to 'Single' (lines 239-242);
      nothing else changes. */
  function WithDefaults(sec: ImageSection): (r: ImageSection)
    ensures r.drawMethod == Some(sec.drawMethod.GetOr("auto"))
    ensures r.imageType == Some(sec.imageType.GetOr("Single"))
    ensures r.(drawMethod := sec.drawMethod, imageType := sec.imageType) == sec
  {
    sec.(drawMethod := Some(sec.drawMethod.GetOr("auto")), imageType := Some(sec.imageType.GetOr("Single")))
  }

  /** The section of an entry, {} when there is none. */
  function SectionOf(e: ImageEntry): ImageSection {
    if e.Dict? then e.sec else EmptySection
  }

  function Stamps(batch: seq<(Stamp, real)>): (r: seq<Stamp>)
    ensures |r| == |batch| && forall k :: 0 <= k < |batch| ==> r[k] == batch[k].0
  {
    seq(|batch|, k requires 0 <= k < |batch| => batch[k].0)
  }

  function StampBounds(batch: seq<(Stamp, real)>): (r: seq<Bounds>)
    ensures |r| == |batch| && forall k :: 0 <= k < |batch| ==> r[k] == batch[k].0.bounds
  {
    seq(|batch|, k requires 0 <= k < |batch| => batch[k].0.bounds)
  }

  function Vars(batch: seq<(Stamp, real)>): (r: seq<real>)
    ensures |r| == |batch| && forall k :: 0 <= k < |batch| ==> r[k] == batch[k].1
  {
    seq(|batch|, k requires 0 <= k < |batch| => batch[k].1)
  }

  /** Whether FlattenNoiseVariance, once called on these variances, adds noise. */
  predicate AddsNoise(vars: seq<real>) {
    vars != [] && SeqMax(vars) > 0.0
  }

  /** The value BuildTiledImage / BuildScatteredImage leave at pixel (x, y):
      what the stamps added there, plus the flattening noise when it was
      added at the given level. */
  function PixelValue(batch: seq<(Stamp, real)>, flattened: bool, level: real, gauss: (int, int, real) -> real,
                      x: int, y: int): real
  {
    StampSum(Stamps(batch), x, y) +
    (if flattened then gauss(x, y, level - VarSum(StampBounds(batch), Vars(batch), x, y)) else 0.0)
  }

  /** Every pixel of the image holds its PixelValue; when noise was added,
      the flat level is the highest variance any pixel had. */
  ghost predicate Composited(img: Image, batch: seq<(Stamp, real)>, flattened: bool, level: real,
                             gauss: (int, int, real) -> real)
    reads img, img.pix
    requires img.Valid()
  {
    (flattened ==> IsMaxVar(img.ImageBounds(), StampBounds(batch), Vars(batch), level)) &&
    forall x, y :: Contains(img.ImageBounds(), x, y) ==> img.At(x, y) == PixelValue(batch, flattened, level, gauss, x, y)
  }

  /** The tile centres BuildTiledImage writes for this layout, origin, order and draws. */
  function TiledPositions(l: TiledLayout, origin: int, o: Order, draws: seq<nat>): (seq<real>, seq<real>)
    requires ValidDraws(Count(l.nx) * Count(l.ny), draws)
  {
    var ts := TilesInOrder(Count(l.nx), Count(l.ny), o, draws);
    TileCentres(l, origin, Xs(ts), Ys(ts))
  }

  /** The ix, iy lists in the requested order, turned into the tile centres
      written as image_pos (lines 535-568). */
  method TilePositions(l: TiledLayout, origin: int, order: Option<string>, draws: seq<nat>)
    returns (r: Result<(seq<real>, seq<real>)>)
    requires ValidDraws(Count(l.nx) * Count(l.ny), draws)
    ensures r.Err? <==> ParseOrder(order).Err?
    ensures r.Err? ==> r.error == InvalidOrder
    ensures r.Ok? ==> r.value == TiledPositions(l, origin, ParseOrder(order).value, draws)
  {
    var ixy :- TileOrder(Count(l.nx), Count(l.ny), order, draws);
    assert Xs(Zip(ixy.0, ixy.1)) == ixy.0 && Ys(Zip(ixy.0, ixy.1)) == ixy.1;
    return Ok(TileCentres(l, origin, ixy.0, ixy.1));
  }

  /** range(n) has max(n, 0) elements. */
  function Count(n: int): nat { if n < 0 then 0 else n }

  /** Every pixel is 0, as after setZero(). */
  ghost predicate Blank(img: Image)
    reads img, img.pix
    requires img.Valid()
  {
    forall x, y :: Contains(img.ImageBounds(), x, y) ==> img.At(x, y) == 0.0
  }

  /** BuildTiledImage once the stamps are drawn (lines 574-590): each stamp
      is added under the assertion that the image includes it, then the
      noise is flattened if `flatten`; the result is current_var. */
  method FinishTiled(full: Image, batch: seq<(Stamp, real)>, flatten: bool, gauss: (int, int, real) -> real)
    returns (r: Result<real>)
    requires full.Valid() && Blank(full)
    modifies full.pix
    ensures FirstUncontained(full.ImageBounds(), Stamps(batch)) < |batch| ==> r == Err(StampNotContained)
    ensures flatten && batch == [] ==> r == Err(EmptyMax)
    ensures r.Err? ==> r.error == StampNotContained || r.error == EmptyMax
    ensures r.Ok? ==> FirstUncontained(full.ImageBounds(), Stamps(batch)) == |batch| &&
                      Composited(full, batch, flatten && AddsNoise(Vars(batch)), r.value, gauss)
    ensures r.Ok? && flatten ==> batch != [] && (AddsNoise(Vars(batch)) || r.value == SeqMax(Vars(batch)))
    ensures r.Ok? && !flatten ==> r.value == 0.0
  {
    var stamps := Stamps(batch);
    var placed := CompositeTiled(full, stamps);
    if placed.Err? {
      return Err(placed.error);
    }
    assert stamps[..|stamps|] == stamps;
    r := FlattenBatch(full, batch, flatten, gauss);
  }

  /** BuildScatteredImage once the stamps are drawn (lines 717-734): each
      stamp adds its overlap with the image, then the noise is flattened if
      `flatten`; the result is current_var. */
  method FinishScattered(full: Image, batch: seq<(Stamp, real)>, flatten: bool, gauss: (int, int, real) -> real)
    returns (r: Result<real>)
    requires full.Valid() && Blank(full)
    modifies full.pix
    ensures r.Err? <==> flatten && (batch == [] || (AddsNoise(Vars(batch)) && (full.xsize == 0 || full.ysize == 0)))
    ensures r.Err? ==> r.error == EmptyMax
    ensures r.Ok? ==> Composited(full, batch, flatten && AddsNoise(Vars(batch)), r.value, gauss)
    ensures r.Ok? && flatten ==> batch != [] && (AddsNoise(Vars(batch)) || r.value == SeqMax(Vars(batch)))
    ensures r.Ok? && !flatten ==> r.value == 0.0
  {
    CompositeScattered(full, Stamps(batch));
    r := FlattenBatch(full, batch, flatten, gauss);
  }

  /** The step both builders end with (lines 584-588 and 737-740): when the
      stamps were whitened, FlattenNoiseVariance brings the composited image
      to one noise level, which becomes current_var; otherwise current_var
      is 0. */
  method FlattenBatch(full: Image, batch: seq<(Stamp, real)>, flatten: bool, gauss: (int, int, real) -> real)
    returns (r: Result<real>)
    requires full.Valid() && Composited(full, batch, false, 0.0, gauss)
    modifies full.pix
    ensures r.Err? <==> flatten && (batch == [] || (AddsNoise(Vars(batch)) && (full.xsize == 0 || full.ysize == 0)))
    ensures r.Err? ==> r.error == EmptyMax
    ensures r.Ok? ==> Composited(full, batch, flatten && AddsNoise(Vars(batch)), r.value, gauss)
    ensures r.Ok? && flatten ==> batch != [] && (AddsNoise(Vars(batch)) || r.value == SeqMax(Vars(batch)))
    ensures r.Ok? && !flatten ==> r.value == 0.0
  {
    if !flatten {
      return Ok(0.0);
    }
    r := FlattenNoiseVariance(full, StampBounds(batch), Vars(batch), gauss);
    if r.Ok? {
      var added := AddsNoise(Vars(batch));
      forall x, y | Contains(full.ImageBounds(), x, y)
        ensures full.At(x, y) == PixelValue(batch, added, r.value, gauss, x, y)
      {
        assert old(full.At(x, y)) == StampSum(Stamps(batch), x, y);
      }
    }
  }

  class Config {
    var image: ImageEntry
    /** image_force_xsize / image_force_ysize, set by callers of BuildImage. */
    const forceX: Option<int>
    const forceY: Option<int>
    /** What ProcessInputNObjects returns. */
    const inputNObjects: Option<int>
    var imageNum: int
    var objNum: int
    var indexKey: string
    var imageXSize: int
    var imageYSize: int
    var geometry: Option<Geometry>
    /** nx_tiles, ny_tiles, tile_[xy]size, tile_[xy]border, do_noise_in_stamps. */
    var tiles: Option<TiledLayout>
    var nobjects: int
    var imagePos: Option<PosSpec>
    var currentVar: real

    constructor (image: ImageEntry, forceX: Option<int>, forceY: Option<int>, inputNObjects: Option<int>)
      ensures this.image == image && this.forceX == forceX && this.forceY == forceY
      ensures this.inputNObjects == inputNObjects
      ensures geometry.None? && tiles.None? && imagePos.None?
    {
      this.image := image;
      this.forceX := forceX;
      this.forceY := forceY;
      this.inputNObjects := inputNObjects;
      imageNum, objNum, indexKey := 0, 0, "";
      imageXSize, imageYSize := 0, 0;
      geometry, tiles, nobjects, imagePos, currentVar := None, None, 0, None, 0.0;
    }

    /** SetupConfigImageNum (lines 214-242): records the image and object
        numbers, creates an empty image section when there is none, refuses
        one that is not a dict, and fills in draw_method and type. */
    method SetupConfigImageNum(imageNum: int, objNum: int) returns (r: Result<()>)
      modifies this
      ensures this.imageNum == imageNum && this.objNum == objNum && indexKey == "image_num"
      ensures r.Err? <==> old(image).NotDict?
      ensures r.Err? ==> r.error == ImageNotDict && image == old(image)
      ensures r.Ok? ==> image == Dict(WithDefaults(SectionOf(old(image))))
      ensures imageXSize == old(imageXSize) && imageYSize == old(imageYSize) && geometry == old(geometry)
      ensures tiles == old(tiles) && nobjects == old(nobjects) && imagePos == old(imagePos) && currentVar == old(currentVar)
    {
      this.imageNum := imageNum;
      this.objNum := objNum;
      indexKey := "image_num";
      if image.Missing? {
        image := Dict(EmptySection);
      }
      if image.NotDict? {
        return Err(ImageNotDict);
      }
      image := Dict(WithDefaults(image.sec));
      return Ok(());
    }

    /** SetupConfigImageSize (lines 245-276): records the size, then the
        origin, centre and bounds the index convention gives. */
    method SetupConfigImageSize(xsize: int, ysize: int) returns (r: Result<()>)
      requires image.Dict?
      modifies this
      ensures image == old(image) && tiles == old(tiles) && nobjects == old(nobjects)
      ensures imagePos == old(imagePos) && currentVar == old(currentVar)
      ensures imageNum == old(imageNum) && objNum == old(objNum) && indexKey == old(indexKey)
      ensures imageXSize == xsize && imageYSize == ysize
      ensures r.Err? <==> IndexOrigin(image.sec.indexConvention).Err?
      ensures r.Err? ==> r.error == IndexOrigin(image.sec.indexConvention).error && geometry == old(geometry)
      ensures r.Ok? ==> geometry == Some(SetupGeometry(xsize, ysize, image.sec.indexConvention).value)
    {
      imageXSize := xsize;
      imageYSize := ysize;
      var g :- SetupGeometry(xsize, ysize, image.sec.indexConvention);
      geometry := Some(g);
      return Ok(());
    }

    /** The setup half of BuildImage (lines 304-327): the image type (read
        before the defaults are filled in), SetupConfigImageNum, the type's
        Setup function and SetupConfigImageSize with the size it returns. */
    method SetupImage(imageNum: int, objNum: int) returns (r: Result<ImageType>)
      modifies this
      ensures var typeName := if old(image).Dict? then old(image).sec.imageType else None;
              ParseImageType(typeName).Err? ==> r == Err(ParseImageType(typeName).error)
      ensures r.Ok? ==> r == ParseImageType(if old(image).Dict? then old(image).sec.imageType else None)
      ensures r.Ok? ==> (old(image).Missing? || old(image).Dict?) && image.Dict? && geometry.Some? &&
                        IndexOrigin(image.sec.indexConvention).Ok? &&
                        geometry.value == SetupGeometry(imageXSize, imageYSize, image.sec.indexConvention).value
      ensures r == Ok(Single) ==>
                var sec := WithDefaults(SectionOf(old(image)));
                SetupSingle(sec, forceX, forceY).Ok? &&
                (imageXSize, imageYSize) == SetupSingle(sec, forceX, forceY).value &&
                image == Dict(SingleSection(sec))
      ensures r == Ok(Tiled) ==>
                var sec := WithDefaults(SectionOf(old(image)));
                SetupTiled(sec, forceX, forceY).Ok? &&
                var l := SetupTiled(sec, forceX, forceY).value;
                image == Dict(sec) && tiles == Some(l) && imageXSize == l.fullX && imageYSize == l.fullY
      ensures r == Ok(Scattered) ==>
                var sec := WithDefaults(SectionOf(old(image)));
                SetupScattered(sec, inputNObjects, forceX, forceY).Ok? &&
                var s := SetupScattered(sec, inputNObjects, forceX, forceY).value;
                image == Dict(sec) && nobjects == s.nobjects && imageXSize == s.fullX && imageYSize == s.fullY
    ensures var typeName := if old(image).Dict? then old(image).sec.imageType else None;
            ParseImageType(typeName).Ok? ==>
              this.imageNum == imageNum && this.objNum == objNum && indexKey == "image_num"
    ensures var typeName := if old(image).Dict? then old(image).sec.imageType else None;
            ParseImageType(typeName).Err? ==>
              image == old(image) && this.imageNum == old(this.imageNum) && this.objNum == old(this.objNum) &&
              indexKey == old(indexKey) && geometry == old(geometry) &&
              imageXSize == old(imageXSize) && imageYSize == old(imageYSize)
    ensures var typeName := if old(image).Dict? then old(image).sec.imageType else None;
            ParseImageType(typeName) != Ok(Tiled) ==> tiles == old(tiles)
    ensures var typeName := if old(image).Dict? then old(image).sec.imageType else None;
            ParseImageType(typeName) != Ok(Scattered) ==> nobjects == old(nobjects)
    ensures imagePos == old(imagePos) && currentVar == old(currentVar)
    {
      var typeName := if image.Dict? then image.sec.imageType else None;
      var t :- ParseImageType(typeName);
      var ok :- SetupConfigImageNum(imageNum, objNum);
      var size :- SetupType(t);
      ok :- SetupConfigImageSize(size.0, size.1);
      return Ok(t);
    }

    /** The type's own setup function (setup_func, lines 322-323), which
        returns the image size: SetupSingleImage rewrites the section,
        SetupTiledImage records the tile layout, SetupScatteredImage the
        object count. */
    method SetupType(t: ImageType) returns (r: Result<(int, int)>)
      requires image.Dict?
      modifies this
      ensures imageNum == old(imageNum) && objNum == old(objNum) && indexKey == old(indexKey)
      ensures geometry == old(geometry) && imageXSize == old(imageXSize) && imageYSize == old(imageYSize)
      ensures imagePos == old(imagePos) && currentVar == old(currentVar)
      ensures t != Single || r.Err? ==> image == old(image)
      ensures t != Tiled || r.Err? ==> tiles == old(tiles)
      ensures t != Scattered || r.Err? ==> nobjects == old(nobjects)
      ensures t == Single ==>
                var sz := SetupSingle(old(image).sec, forceX, forceY);
                (r.Ok? <==> sz.Ok?) && (r.Ok? ==> r.value == sz.value && image == Dict(SingleSection(old(image).sec)))
      ensures t == Tiled ==>
                var l := SetupTiled(old(image).sec, forceX, forceY);
                (r.Ok? <==> l.Ok?) && (r.Ok? ==> r.value == (l.value.fullX, l.value.fullY) && tiles == Some(l.value))
      ensures t == Scattered ==>
                var sc := SetupScattered(old(image).sec, inputNObjects, forceX, forceY);
                (r.Ok? <==> sc.Ok?) && (r.Ok? ==> r.value == (sc.value.fullX, sc.value.fullY) && nobjects == sc.value.nobjects)
    {
      var sec := image.sec;
      match t {
        case Single =>
          var size :- SetupSingle(sec, forceX, forceY);
          image := Dict(SingleSection(sec));
          return Ok(size);
        case Tiled =>
          var l :- SetupTiled(sec, forceX, forceY);
          tiles := Some(l);
          return Ok((l.fullX, l.fullY));
        case Scattered =>
          var sc :- SetupScattered(sec, inputNObjects, forceX, forceY);
          nobjects := sc.nobjects;
          return Ok((sc.fullX, sc.fullY));
      }
    }

    /** BuildTiledImage (lines 500-590): a zeroed image of the set-up size,
        the tiles in the requested order, their centres written as
        image_pos, the stamps drawn there added under the containment
        assertion, and the noise flattened when it was not drawn in the
        stamps but is asked for. `draws` feed the 'rand' order. */
    method BuildTiledImage(draws: seq<nat>, buildStamps: (seq<real>, seq<real>) -> Result<seq<(Stamp, real)>>,
                           gauss: (int, int, real) -> real)
      returns (r: Result<Image>)
      requires image.Dict? && geometry.Some? && tiles.Some?
      requires ValidDraws(Count(tiles.value.nx) * Count(tiles.value.ny), draws)
      modifies this
      ensures geometry == old(geometry) && tiles == old(tiles)
      ensures imageXSize == old(imageXSize) && imageYSize == old(imageYSize)
      ensures imageNum == old(imageNum) && objNum == old(objNum) && indexKey == old(indexKey) && nobjects == old(nobjects)
      ensures image.Dict? && image.sec == old(image).sec.(hasImagePos := image.sec.hasImagePos)
      ensures imageXSize < 0 || imageYSize < 0 ==> r == Err(NegativeCanvasSize)
      ensures imageXSize >= 0 && imageYSize >= 0 && ParseOrder(image.sec.order).Err? ==> r == Err(InvalidOrder)
      ensures r.Ok? ==>
                ParseOrder(image.sec.order).Ok? &&
                var l := tiles.value;
                var pos := TiledPositions(l, geometry.value.origin, ParseOrder(image.sec.order).value, draws);
                imagePos == Some(Grid(pos.0, pos.1)) && image.sec.hasImagePos &&
                buildStamps(pos.0, pos.1).Ok? &&
                var batch := buildStamps(pos.0, pos.1).value;
                var flatten := !l.doNoise && image.sec.hasNoise;
                fresh(r.value) && fresh(r.value.pix) && r.value.Valid() &&
                r.value.xmin == geometry.value.origin && r.value.ymin == geometry.value.origin &&
                r.value.xsize == imageXSize && r.value.ysize == imageYSize &&
                FirstUncontained(r.value.ImageBounds(), Stamps(batch)) == |batch| &&
                Composited(r.value, batch, flatten && AddsNoise(Vars(batch)), currentVar, gauss) &&
                (flatten ==> batch != [] && (AddsNoise(Vars(batch)) || currentVar == SeqMax(Vars(batch)))) &&
                (!flatten ==> currentVar == 0.0)
    {
      if imageXSize < 0 || imageYSize < 0 {
        return Err(NegativeCanvasSize);
      }
      var g := geometry.value;
      var l := tiles.value;
      var sec := image.sec;
      var full := new Image(g.origin, g.origin, imageXSize, imageYSize);
      var centres :- TilePositions(l, g.origin, sec.order, draws);
      imagePos := Some(Grid(centres.0, centres.1));
      image := Dict(sec.(hasImagePos := true));
      var batch :- buildStamps(centres.0, centres.1);
      var cv :- FinishTiled(full, batch, !l.doNoise && sec.hasNoise, gauss);
      currentVar := cv;
      return Ok(full);
    }

    /** BuildScatteredImage (lines 672-734): a zeroed image of the set-up
        size; image_pos and world_pos together are refused, and with neither
        the stamps are placed uniformly over the image; each stamp adds its
        overlap with the image; the noise is flattened when asked for.
        `buildStamps` is given the uniform range when one was written. */
    method BuildScatteredImage(buildStamps: Option<Bounds> -> Result<seq<(Stamp, real)>>,
                               gauss: (int, int, real) -> real)
      returns (r: Result<Image>)
      requires image.Dict? && geometry.Some?
      modifies this
      ensures geometry == old(geometry) && tiles == old(tiles)
      ensures imageXSize == old(imageXSize) && imageYSize == old(imageYSize)
      ensures imageNum == old(imageNum) && objNum == old(objNum) && indexKey == old(indexKey) && nobjects == old(nobjects)
      ensures image.Dict? && image.sec == old(image).sec.(hasImagePos := image.sec.hasImagePos)
      ensures imageXSize < 0 || imageYSize < 0 ==> r == Err(NegativeCanvasSize)
      ensures imageXSize >= 0 && imageYSize >= 0 && old(image).sec.hasImagePos && old(image).sec.hasWorldPos ==>
                r == Err(BothPositions)
      ensures r.Ok? ==>
                ScatteredPositions(old(image).sec, geometry.value.origin, imageXSize, imageYSize).Ok? &&
                var pos := ScatteredPositions(old(image).sec, geometry.value.origin, imageXSize, imageYSize).value;
                (pos.Some? ==> imagePos == Some(Uniform(pos.value)) && image.sec.hasImagePos) &&
                (pos.None? ==> imagePos == old(imagePos) && image == old(image)) &&
                buildStamps(pos).Ok? &&
                var batch := buildStamps(pos).value;
                var flatten := image.sec.hasNoise;
                fresh(r.value) && fresh(r.value.pix) && r.value.Valid() &&
                r.value.xmin == geometry.value.origin && r.value.ymin == geometry.value.origin &&
                r.value.xsize == imageXSize && r.value.ysize == imageYSize &&
                (pos.Some? ==> pos.value == r.value.ImageBounds()) &&
                Composited(r.value, batch, flatten && AddsNoise(Vars(batch)), currentVar, gauss) &&
                (flatten ==> batch != [] && (AddsNoise(Vars(batch)) || currentVar == SeqMax(Vars(batch)))) &&
                (!flatten ==> currentVar == 0.0)
    {
      if imageXSize < 0 || imageYSize < 0 {
        return Err(NegativeCanvasSize);
      }
      var g := geometry.value;
      var sec := image.sec;
      var full := new Image(g.origin, g.origin, imageXSize, imageYSize);
      var pos :- ScatteredPositions(sec, g.origin, imageXSize, imageYSize);
      if pos.Some? {
        imagePos := Some(Uniform(pos.value));
        image := Dict(sec.(hasImagePos := true));
      }
      var batch :- buildStamps(pos);
      var cv :- FinishScattered(full, batch, sec.hasNoise, gauss);
      currentVar := cv;
      return Ok(full);
    }
  }
}

/** Per-image setup in galsim/config/image.py: the image type, the size
    each type's Setup function derives from the `image` section, the index
    convention and the bounds it gives, the number of objects each type
    draws, and which final noise steps each type applies.

    The `image` section is given already parsed: ParseValue and
    GetAllParams are outside this model, so each key the core reads is an
    Option holding its parsed value. */
module ImageSetup {
  import opened Common
  import opened Bounds

  // ---------------------------------------------------------------------------
  // Image types

  /** The keys of valid_image_types (lines 25-31); the table and the eval of
      its function names become a closed choice. */
  datatype ImageType = Single | Tiled | Scattered

  /** image.type, with 'Single' when it is not given (lines 304-310). */
  function ParseImageType(name: Option<string>): (r: Result<ImageType>)
    ensures name.None? ==> r == Ok(Single)
    ensures r.Ok? ==> name.None? || name.value == TypeName(r.value)
    ensures name.Some? && (forall t: ImageType :: name.value != TypeName(t)) ==> r == Err(InvalidImageType(name.value))
  {
    match name
    case None => Ok(Single)
    case Some(s) =>
      if s == "Single" then Ok(Single)
      else if s == "Tiled" then Ok(Tiled)
      else if s == "Scattered" then Ok(Scattered)
      else Err(InvalidImageType(s))
  }

  function TypeName(t: ImageType): string {
    match t
    case Single => "Single"
    case Tiled => "Tiled"
    case Scattered => "Scattered"
  }

  /** Every type is recognised under its own name, and under no other. */
  lemma ParseTypeName(t: ImageType)
    ensures ParseImageType(Some(TypeName(t))) == Ok(t)
  {
  }

  // ---------------------------------------------------------------------------
  // The image section

  /** config['image'] after parsing: each optional key the core reads. */
  datatype ImageSection = ImageSection(
    imageType: Option<string>,
    drawMethod: Option<string>,
    size: Option<int>, xsize: Option<int>, ysize: Option<int>,
    nxTiles: Option<int>, nyTiles: Option<int>,
    stampSize: Option<int>, stampXSize: Option<int>, stampYSize: Option<int>,
    border: Option<int>, xborder: Option<int>, yborder: Option<int>,
    order: Option<string>,
    nobjects: Option<int>,
    hasImagePos: bool, hasWorldPos: bool, hasNoise: bool,
    indexConvention: Option<string>,
    nproc: Option<int>)

  /** The section config['image'] = {} creates. */
  const EmptySection := ImageSection(None, None, None, None, None, None, None, None, None, None,
                                     None, None, None, None, None, false, false, false, None, None)

  /** A forced size differs: image_force_xsize / image_force_ysize are set
      in the top-level config and do not match. */
  predicate Mismatch(xsize: int, ysize: int, forceX: Option<int>, forceY: Option<int>) {
    (forceX.Some? && xsize != forceX.value) || (forceY.Some? && ysize != forceY.value)
  }

  // ---------------------------------------------------------------------------
  // Single

  /** SetupSingleImage (lines 371-408): both forced sizes override the
      section; otherwise size is the default of xsize and ysize, which
      default to 0 ("automatic"). Exactly one zero dimension is an error. */
  function SetupSingle(sec: ImageSection, forceX: Option<int>, forceY: Option<int>): (r: Result<(int, int)>)
    ensures var size := sec.size.GetOr(0);
            var (x, y) := if forceX.Some? && forceY.Some? then (forceX.value, forceY.value)
                          else (sec.xsize.GetOr(size), sec.ysize.GetOr(size));
            (r.Err? <==> (x == 0) != (y == 0)) &&
            (r.Ok? ==> r.value == (x, y)) &&
            (r.Err? ==> r.error == OneSizeZero)
    ensures r.Ok? ==> (r.value.0 == 0 <==> r.value.1 == 0)
  {
    var size := sec.size.GetOr(0);
    var (x, y) := if forceX.Some? && forceY.Some? then (forceX.value, forceY.value)
                  else (sec.xsize.GetOr(size), sec.ysize.GetOr(size));
    if (x == 0) != (y == 0) then Err(OneSizeZero) else Ok((x, y))
  }

  /** With only `size` given (and no forced sizes) the image is square. */
  lemma SingleSquare(sec: ImageSection, n: int)
    requires sec.size == Some(n) && sec.xsize.None? && sec.ysize.None?
    ensures SetupSingle(sec, None, None) == Ok((n, n))
  {
  }

  /** world_pos in the section makes SetupSingleImage add image_pos = (0,0)
      (lines 405-406), so the stamp gets no final shift. */
  function SingleSection(sec: ImageSection): (r: ImageSection)
    ensures r.hasImagePos == (sec.hasImagePos || sec.hasWorldPos)
    ensures r.hasWorldPos == sec.hasWorldPos
  {
    if sec.hasWorldPos then sec.(hasImagePos := true) else sec
  }

  // ---------------------------------------------------------------------------
  // Tiled

  /** What SetupTiledImage stores in config for BuildTiledImage. */
  datatype TiledLayout = TiledLayout(nx: int, ny: int, stampX: int, stampY: int,
                                     xborder: int, yborder: int, doNoise: bool,
                                     fullX: int, fullY: int)

  /** SetupTiledImage (lines 432-497): nx_tiles and ny_tiles are required;
      stamp sizes default to stamp_size, then 0, and must both be nonzero;
      borders default to border, then 0; the full size is the tiles plus the
      borders between them; a forced size must match. */
  function SetupTiled(sec: ImageSection, forceX: Option<int>, forceY: Option<int>): (r: Result<TiledLayout>)
    ensures var sx := sec.stampXSize.GetOr(sec.stampSize.GetOr(0));
            var sy := sec.stampYSize.GetOr(sec.stampSize.GetOr(0));
            var xb := sec.xborder.GetOr(sec.border.GetOr(0));
            var yb := sec.yborder.GetOr(sec.border.GetOr(0));
            (sec.nxTiles.None? || sec.nyTiles.None? ==> r == Err(MissingTiles)) &&
            (sec.nxTiles.Some? && sec.nyTiles.Some? && (sx == 0 || sy == 0) ==> r == Err(ZeroStampSize)) &&
            (r.Ok? <==> sec.nxTiles.Some? && sec.nyTiles.Some? && sx != 0 && sy != 0 &&
                        !Mismatch((sx + xb) * sec.nxTiles.value - xb, (sy + yb) * sec.nyTiles.value - yb, forceX, forceY)) &&
            (r.Ok? ==> r.value == TiledLayout(sec.nxTiles.value, sec.nyTiles.value, sx, sy, xb, yb, xb >= 0 && yb >= 0,
                                               (sx + xb) * sec.nxTiles.value - xb, (sy + yb) * sec.nyTiles.value - yb))
    ensures r.Err? ==> r.error in {MissingTiles, ZeroStampSize, ForcedSizeMismatch}
    ensures r.Ok? ==> (r.value.doNoise <==> r.value.xborder >= 0 && r.value.yborder >= 0)
  {
    if sec.nxTiles.None? || sec.nyTiles.None? then Err(MissingTiles)
    else
      var nx := sec.nxTiles.value;
      var ny := sec.nyTiles.value;
      var sx := sec.stampXSize.GetOr(sec.stampSize.GetOr(0));
      var sy := sec.stampYSize.GetOr(sec.stampSize.GetOr(0));
      if sx == 0 || sy == 0 then Err(ZeroStampSize)
      else
        var xb := sec.xborder.GetOr(sec.border.GetOr(0));
        var yb := sec.yborder.GetOr(sec.border.GetOr(0));
        var fullX := (sx + xb) * nx - xb;
        var fullY := (sy + yb) * ny - yb;
        if Mismatch(fullX, fullY, forceX, forceY) then Err(ForcedSizeMismatch)
        else Ok(TiledLayout(nx, ny, sx, sy, xb, yb, xb >= 0 && yb >= 0, fullX, fullY))
  }

  /** The full size along an axis is n stamps and the n-1 borders between
      them. */
  lemma {:induction false} TiledFullSize(sec: ImageSection, forceX: Option<int>, forceY: Option<int>)
    requires SetupTiled(sec, forceX, forceY).Ok?
    ensures var l := SetupTiled(sec, forceX, forceY).value;
            l.fullX == l.nx * l.stampX + (l.nx - 1) * l.xborder &&
            l.fullY == l.ny * l.stampY + (l.ny - 1) * l.yborder
  {
    var l := SetupTiled(sec, forceX, forceY).value;
    assert (l.stampX + l.xborder) * l.nx == l.nx * l.stampX + l.nx * l.xborder;
    assert (l.stampY + l.yborder) * l.ny == l.ny * l.stampY + l.ny * l.yborder;
  }

  // ---------------------------------------------------------------------------
  // Scattered

  datatype ScatteredLayout = ScatteredLayout(nobjects: int, fullX: int, fullY: int)

  /** The size of a Scattered image is given as `size` alone or as both
      xsize and ysize. */
  predicate ScatteredSizeGiven(sec: ImageSection) {
    (sec.size.Some? && sec.xsize.None? && sec.ysize.None?) ||
    (sec.size.None? && sec.xsize.Some? && sec.ysize.Some?)
  }

  /** The width and height a well-formed Scattered section asks for. */
  function ScatteredX(sec: ImageSection): int
    requires ScatteredSizeGiven(sec)
  {
    if sec.size.Some? then sec.size.value else sec.xsize.value
  }

  function ScatteredY(sec: ImageSection): int
    requires ScatteredSizeGiven(sec)
  {
    if sec.size.Some? then sec.size.value else sec.ysize.value
  }

  /** SetupScatteredImage (lines 613-669): nobjects comes from the section,
      or else from the input catalog (`inputNObjects`, None when no input
      gives a count); the size is either `size` alone or both xsize and
      ysize; a forced size must match. */
  function SetupScattered(sec: ImageSection, inputNObjects: Option<int>, forceX: Option<int>, forceY: Option<int>)
    : (r: Result<ScatteredLayout>)
    ensures sec.nobjects.None? && inputNObjects.None? ==> r == Err(MissingNObjects)
    ensures r.Ok? ==> r.value.nobjects == (if sec.nobjects.Some? then sec.nobjects.value else inputNObjects.value)
    ensures (sec.nobjects.Some? || inputNObjects.Some?) ==>
              (sec.size.None? && (sec.xsize.None? || sec.ysize.None?) ==> r == Err(MissingSize)) &&
              (sec.size.Some? && sec.xsize.Some? ==> r == Err(SizeWithXSize)) &&
              (sec.size.Some? && sec.xsize.None? && sec.ysize.Some? ==> r == Err(SizeWithYSize))
    ensures r.Ok? ==> (sec.size.Some? <==> sec.xsize.None? && sec.ysize.None?)
    ensures r.Ok? && sec.size.Some? ==> r.value.fullX == r.value.fullY == sec.size.value
    ensures r.Ok? && sec.size.None? ==> r.value.fullX == sec.xsize.value && r.value.fullY == sec.ysize.value
    ensures r.Ok? ==> !Mismatch(r.value.fullX, r.value.fullY, forceX, forceY)
    ensures r.Err? ==> r.error in {MissingNObjects, MissingSize, SizeWithXSize, SizeWithYSize, ForcedSizeMismatch}
    ensures r.Err? && r.error == ForcedSizeMismatch ==>
              (sec.nobjects.Some? || inputNObjects.Some?) &&
              (sec.size.Some? <==> sec.xsize.None? && sec.ysize.None?)
    ensures r.Ok? <==> (sec.nobjects.Some? || inputNObjects.Some?) && ScatteredSizeGiven(sec) &&
                       !Mismatch(ScatteredX(sec), ScatteredY(sec), forceX, forceY)
    ensures (sec.nobjects.Some? || inputNObjects.Some?) && ScatteredSizeGiven(sec) &&
              Mismatch(ScatteredX(sec), ScatteredY(sec), forceX, forceY)
            ==> r == Err(ForcedSizeMismatch)
  {
    var nobj :- if sec.nobjects.Some? then Ok(sec.nobjects.value)
                else if inputNObjects.Some? then Ok(inputNObjects.value)
                else Err(MissingNObjects);
    var size :-
      if sec.size.None? then
        if sec.xsize.None? || sec.ysize.None? then Err(MissingSize)
        else Ok((sec.xsize.value, sec.ysize.value))
      else if sec.xsize.Some? then Err(SizeWithXSize)
      else if sec.ysize.Some? then Err(SizeWithYSize)
      else Ok((sec.size.value, sec.size.value));
    if Mismatch(size.0, size.1, forceX, forceY) then Err(ForcedSizeMismatch)
    else Ok(ScatteredLayout(nobj, size.0, size.1))
  }

  // ---------------------------------------------------------------------------
  // Index convention and the image geometry

  function LowerChar(c: char): (d: char)
    ensures 'A' <= c <= 'Z' ==> d as int == c as int + 32
    ensures !('A' <= c <= 'Z') ==> d == c
  {
    if 'A' <= c <= 'Z' then (c as int + 32) as char else c
  }

  /** str.lower() on ASCII letters. */
  function Lower(s: string): (r: string)
    ensures |r| == |s|
    ensures forall i :: 0 <= i < |s| ==> r[i] == LowerChar(s[i])
  {
    seq(|s|, i requires 0 <= i < |s| => LowerChar(s[i]))
  }

  /** Lower-casing twice is lower-casing once. */
  lemma LowerIdempotent(s: string)
    ensures Lower(Lower(s)) == Lower(s)
  {
  }

  /** The first pixel's index from image.index_convention (lines 263-272):
      0 for '0', 'c', 'python'; 1 for '1', 'fortran', 'fits' or no
      convention; any other value is an error. Case does not matter. */
  function IndexOrigin(conv: Option<string>): (r: Result<int>)
    ensures conv.None? ==> r == Ok(1)
    ensures r.Ok? ==> r.value == 0 || r.value == 1
    ensures conv.Some? ==>
              (r == Ok(0) <==> Lower(conv.value) in ["0", "c", "python"]) &&
              (r == Ok(1) <==> Lower(conv.value) in ["1", "fortran", "fits"]) &&
              (r.Err? ==> r.error == UnknownIndexConvention(conv.value))
  {
    match conv
    case None => Ok(1)
    case Some(s) =>
      var l := Lower(s);
      if l in ["0", "c", "python"] then Ok(0)
      else if l in ["1", "fortran", "fits"] then Ok(1)
      else Err(UnknownIndexConvention(s))
  }

  /** The convention is case-insensitive: it depends on the lower-cased name only. */
  lemma {:induction false} IndexOriginCaseInsensitive(s: string, t: string)
    requires Lower(s) == Lower(t)
    ensures IndexOrigin(Some(s)).Ok? <==> IndexOrigin(Some(t)).Ok?
    ensures IndexOrigin(Some(s)).Ok? ==> IndexOrigin(Some(s)) == IndexOrigin(Some(t))
  {
  }

  /** What SetupConfigImageSize records about the image: its size, origin,
      centre and bounds. */
  datatype Geometry = Geometry(xsize: int, ysize: int, origin: int, centerX: real, centerY: real, bounds: Bounds)

  /** Lines 259-276: the origin from the index convention, the centre
      origin + (size-1)/2 and the bounds [origin, origin+size-1] on each axis. */
  function SetupGeometry(xsize: int, ysize: int, conv: Option<string>): (r: Result<Geometry>)
    ensures r.Err? <==> IndexOrigin(conv).Err?
    ensures r.Ok? ==> r.value.origin == IndexOrigin(conv).value
    ensures r.Ok? ==> r.value.xsize == xsize && r.value.ysize == ysize
    ensures r.Ok? ==> forall x, y :: Contains(r.value.bounds, x, y) <==>
              r.value.origin <= x < r.value.origin + xsize && r.value.origin <= y < r.value.origin + ysize
    ensures r.Ok? ==> r.value.centerX == r.value.origin as real + (xsize as real - 1.0) / 2.0
    ensures r.Ok? ==> r.value.centerY == r.value.origin as real + (ysize as real - 1.0) / 2.0
  {
    var origin :- IndexOrigin(conv);
    Ok(Geometry(xsize, ysize, origin,
                origin as real + (xsize as real - 1.0) / 2.0,
                origin as real + (ysize as real - 1.0) / 2.0,
                OfSize(origin, origin, xsize, ysize)))
  }

  /** The centre is the midpoint of the bounds, whenever the image has pixels. */
  lemma GeometryCentred(xsize: int, ysize: int, conv: Option<string>)
    requires SetupGeometry(xsize, ysize, conv).Ok? && xsize >= 1 && ysize >= 1
    ensures var g := SetupGeometry(xsize, ysize, conv).value;
            g.bounds.Box? &&
            g.centerX == (g.bounds.xmin + g.bounds.xmax) as real / 2.0 &&
            g.centerY == (g.bounds.ymin + g.bounds.ymax) as real / 2.0
  {
  }

  // ---------------------------------------------------------------------------
  // Number of objects per image

  /** GetNObjForSingleImage, GetNObjForTiledImage, GetNObjForScatteredImage
      (lines 805-836). */
  function NObjFor(t: ImageType, sec: ImageSection, inputNObjects: Option<int>): (r: Result<int>)
    ensures t == Single ==> r == Ok(1)
    ensures t == Tiled ==> (r.Ok? <==> sec.nxTiles.Some? && sec.nyTiles.Some?)
    ensures t == Tiled && r.Ok? ==> r.value == sec.nxTiles.value * sec.nyTiles.value
    ensures t == Tiled && r.Err? ==> r.error == MissingTiles
    ensures t == Scattered ==> (r.Ok? <==> sec.nobjects.Some? || inputNObjects.Some?)
    ensures t == Scattered && r.Err? ==> r.error == MissingNObjects
  {
    match t
    case Single => Ok(1)
    case Tiled =>
      if sec.nxTiles.None? || sec.nyTiles.None? then Err(MissingTiles)
      else Ok(sec.nxTiles.value * sec.nyTiles.value)
    case Scattered =>
      if sec.nobjects.Some? then Ok(sec.nobjects.value)
      else if inputNObjects.Some? then Ok(inputNObjects.value)
      else Err(MissingNObjects)
  }

  /** GetNObjForImage (lines 791-802): dispatch on image.type, which is
      'Single' when there is no image section or no type. */
  function NObjForImage(sec: Option<ImageSection>, inputNObjects: Option<int>): (r: Result<int>)
    ensures var typeName := if sec.Some? then sec.value.imageType else None;
            ParseImageType(typeName).Err? ==> r.Err? && r.error == ParseImageType(typeName).error
    ensures var typeName := if sec.Some? then sec.value.imageType else None;
            ParseImageType(typeName).Ok? ==>
              r == NObjFor(ParseImageType(typeName).value, if sec.Some? then sec.value else EmptySection, inputNObjects)
    ensures sec.None? ==> r == Ok(1)
  {
    var typeName := if sec.Some? then sec.value.imageType else None;
    var t :- ParseImageType(typeName);
    NObjFor(t, if sec.Some? then sec.value else EmptySection, inputNObjects)
  }

  /** The count by which obj_num advances past a Tiled image is the number
      of stamps BuildTiledImage draws, nx_tiles * ny_tiles. */
  lemma TiledCountsAgree(sec: ImageSection, forceX: Option<int>, forceY: Option<int>, inputNObjects: Option<int>)
    requires SetupTiled(sec, forceX, forceY).Ok?
    ensures var l := SetupTiled(sec, forceX, forceY).value;
            NObjFor(Tiled, sec, inputNObjects) == Ok(l.nx * l.ny)
  {
  }

  /** The count by which obj_num advances past a Scattered image is the
      number of stamps BuildScatteredImage draws. */
  lemma ScatteredCountsAgree(sec: ImageSection, inputNObjects: Option<int>, forceX: Option<int>, forceY: Option<int>)
    requires SetupScattered(sec, inputNObjects, forceX, forceY).Ok?
    ensures NObjFor(Scattered, sec, inputNObjects) == Ok(SetupScattered(sec, inputNObjects, forceX, forceY).value.nobjects)
  {
  }

  // ---------------------------------------------------------------------------
  // Final noise

  /** The steps AddNoiseTiledImage / AddNoiseScatteredImage take after the
      image is built (lines 593-606, 745-758); Single has no such function
      (lines 27-31). */
  datatype FinalStep = AddSky | AddNoise(currentVar: real)

  function FinalSteps(t: ImageType, doNoiseInStamps: bool, hasNoise: bool, currentVar: real): (r: seq<FinalStep>)
    ensures t == Single ==> r == []
    ensures t == Tiled && doNoiseInStamps ==> r == []
    ensures (t == Scattered || (t == Tiled && !doNoiseInStamps)) ==> |r| >= 1 && r[0] == AddSky
    ensures forall k :: 0 <= k < |r| && r[k].AddNoise? ==> hasNoise && k == |r| - 1 && r[k].currentVar == currentVar
    ensures hasNoise && (t == Scattered || (t == Tiled && !doNoiseInStamps)) ==> r == [AddSky, AddNoise(currentVar)]
    ensures !hasNoise && (t == Scattered || (t == Tiled && !doNoiseInStamps)) ==> r == [AddSky]
    ensures |r| <= 2
  {
    var noise := if hasNoise then [AddNoise(currentVar)] else [];
    match t
    case Single => []
    case Tiled => if doNoiseInStamps then [] else [AddSky] + noise
    case Scattered => [AddSky] + noise
  }
}

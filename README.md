# GalSim config: image assembly, in Dafny

This project models the image layer of GalSim's configuration driver
(`galsim/config/image.py`) and the list shuffle it uses
(`permute` in `galsim/random.py`), and proves what that code promises:

- **BuildImages.** How a batch of images is split into chunks of
  `nim_per_task` images, which worker processes build and return in any
  order. The chunk size is a whole number of Rings. The chunks cover the
  batch exactly. Each chunk starts with the `obj_num` the serial loop would
  hold at that image. Results land in their own slots. The first error
  aborts the batch. Serial and parallel builds give the same list.
- **Per-image setup.** The image number and defaults
  (`SetupConfigImageNum`). The index convention, origin, centre and bounds
  (`SetupConfigImageSize`). The size rules of the Single, Tiled and
  Scattered types. The object count of each type (`GetNObjFor*`).
- **Compositing.** The tile visit order: row, column, or column order
  shuffled by `permute`. Every tile is visited exactly once. The tile
  centres. The tiled sum of stamps, under the containment assertion. The
  scattered sum, over the overlap with the image only.
- **FlattenNoiseVariance.** The per-pixel variance map, its maximum, and
  the non-negative deficit that brings each pixel to that maximum.
- **permute.** A Fisher-Yates style loop that applies one swap sequence to
  several parallel lists. The lists stay permutations and stay aligned.

Modules:

- `common.dfy`: `Option`, `Result`, and one error per raise site.
- `bounds.dfy`: `BoundsI`, with the undefined case, `&` and `includes`.
- `shuffle.dfy`: `permute`.
- `dispatch.dfy`: `BuildImages`.
- `setup.dfy`: type dispatch, the Setup functions, the index convention
  and `GetNObjFor*`.
- `canvas.dfy`: the full image as a class over a 2-D array of reals.
- `compose.dfy`: tile order, tile centres and the two compositing loops.
- `noise.dfy`: `FlattenNoiseVariance`.
- `config.dfy`: the config dict as a class. Its methods are
  `SetupConfigImageNum`, `SetupConfigImageSize`, the setup half of
  `BuildImage`, `BuildTiledImage` and `BuildScatteredImage`.

The external machinery enters the model as parameters:

- Building one image (`BuildImage`, seen from `BuildImages`) is
  `build(image_num, obj_num)`, which returns an image or an error.
- The object count of each image of a batch is the input `nobj`.
- The order in which chunk results come back is `arrival`, any ordering of
  the chunks.
- The stamps `BuildStamps` draws are `buildStamps(positions)`, with their
  noise variances.
- The uniform deviates `permute` draws are `draws`: for step i, an integer
  in `[0, i+1]`.
- The Gaussian noise of a given variance at a pixel is `gauss(x, y, v)`.
- The already-parsed image section is a datatype of optional fields
  (`ImageSetup.ImageSection`).

## Model

| member | source | states |
|---|---|---|
| Dispatch.EffectiveNProc | galsim/config/image.py:82-92 | nproc is forced to 1 inside a pool and capped at nimages; the parallel branch runs iff nproc > 1, not already in a pool and nimages > 1 |
| Dispatch.MinImagesPerTask | galsim/config/image.py:112-117 | min_nim is the Ring num when the image type is Single or absent and gal is a Ring with num; otherwise 1 |
| Dispatch.ISqrt | galsim/config/image.py:125 | int(sqrt(n)): the largest s with s*s <= n |
| Dispatch.SqrtOfRatio | galsim/config/image.py:125 | for s = isqrt(a / b) with integer division: s*s*b <= a < (s+1)*(s+1)*b, so it is the largest s with s*s*min_nim <= max_nim |
| Dispatch.ChunkSize | galsim/config/image.py:111-125 | nim_per_task is a positive multiple of min_nim; it is min_nim when max_nim < min_nim, otherwise min_nim*s with s the largest s*s*min_nim <= max_nim, and at most max_nim; a Ring num <= 0 is an error |
| Dispatch.RootChunk | galsim/config/image.py:120-125 | when 0 < min_nim <= max_nim, s >= 1 and 0 < min_nim*s <= max_nim |
| Dispatch.SumSplit | galsim/config/image.py:133-135 | the object count of a prefix splits at any point |
| Dispatch.TasksShape | galsim/config/image.py:131-135 | tasks start at k, k+c, ...; each holds min(c, nimages-k) > 0 images, carries image_num+k and the serial obj_num at k; the last ends at nimages |
| Dispatch.NextTaskObjNum | galsim/config/image.py:131-135 | consecutive tasks are contiguous, and the next obj_num is the previous one plus the counts of the previous task's images |
| Dispatch.TasksAdjacent | galsim/config/image.py:131 | each next task starts nim_per_task images after the previous one |
| Dispatch.TasksStartFrom | galsim/config/image.py:131 | every task queued from k on starts at k or later |
| Dispatch.TasksCover | galsim/config/image.py:131-132 | every image of the batch lies in exactly one task |
| Dispatch.MakeTasks | galsim/config/image.py:130-135 | the queueing loop produces exactly the task list, advancing obj_num image by image |
| Dispatch.AdvanceObjNum | galsim/config/image.py:133-135 | the inner loop advances obj_num to its serial value after the task's images |
| Dispatch.ObjNumStep | galsim/config/image.py:135 | advancing past image q adds its object count |
| Dispatch.RunTask | galsim/config/image.py:52-80 | a worker builds its task's images in order, each with the serial obj_num; it succeeds iff all of them build, else returns the error of the first image that fails, every earlier one having built |
| Dispatch.FirstIsRaised | galsim/config/image.py:61-80 | the first error of a range is an error some image of any enclosing range raised |
| Dispatch.RunTaskAsWritten | galsim/config/image.py:61-80 | the worker including the unguarded `im[0].array.shape` at line 68: the task succeeds exactly when every image builds and every lookup succeeds; otherwise its error is the first failure in build-then-lookup order, ShapeLookupFailed when that failure is a lookup |
| Dispatch.ShapeLookupBreaksAgreement | galsim/config/image.py:68 | there is a one-image task (for instance nimages = 2, nproc = 2, chunk size 1) whose image builds, so the serial branch builds it, but whose lookup fails, so the worker as written errs |
| Dispatch.BuildSerial | galsim/config/image.py:191-205 | the serial loop returns all nimages images in order iff every image builds; otherwise the error of the first failing image, all earlier ones having built |
| Dispatch.Place | galsim/config/image.py:170-173 | a task's results go to slots k0, k0+1, ... and no other slot changes |
| Dispatch.Receive | galsim/config/image.py:158-173 | one drain step either raises the first error among task t's images or, when all of them build, fills exactly that task's slots with the right images |
| Dispatch.Store | galsim/config/image.py:170-173 | storing a built task's images in its slots extends the filled slots by exactly that task |
| Dispatch.FillTask | galsim/config/image.py:170-173 | storing a task's images in its slots extends the filled slots by exactly that task's |
| Dispatch.TaskFacts | galsim/config/image.py:131-135 | the images of task t are exactly those whose task index is t |
| Dispatch.BuildParallel | galsim/config/image.py:94-175 | for any arrival order, the drain returns the images in image order iff every image builds; otherwise the first error result in arrival order: every task received before it built, and the error is the first its own images raise |
| Dispatch.AllReceived | galsim/config/image.py:158 | after one receive per task every slot's task has been received |
| Dispatch.BuildImages | galsim/config/image.py:34-211 | min_nim from the image type and Ring num; the batch succeeds iff every image builds (and the Ring num is positive when parallel), with the images in order; a Ring num <= 0 when parallel is BadRingNum; otherwise the serial branch raises the first failing image's error and the parallel branch the first error result in arrival order |
| Dispatch.BranchesAgree | galsim/config/image.py:158-205 | serial and parallel results that both hold the batch in order are equal |
| ImageSetup.ParseImageType | galsim/config/image.py:304-310 | type defaults to Single; a recognised name maps to its type; any other name is InvalidImageType |
| ImageSetup.ParseTypeName | galsim/config/image.py:25-31 | each type's name parses back to that type |
| ImageSetup.SetupSingle | galsim/config/image.py:371-408 | both forced sizes override; else xsize/ysize default to size, then 0; error iff exactly one is 0 |
| ImageSetup.SingleSquare | galsim/config/image.py:396-398 | with only size given the image is size by size |
| ImageSetup.SingleSection | galsim/config/image.py:405-406 | world_pos makes image_pos present; nothing else changes |
| ImageSetup.SetupTiled | galsim/config/image.py:432-497 | nx_tiles and ny_tiles are required; stamp sizes default to stamp_size then 0 and must be nonzero; borders default to border then 0; full size is (stamp+border)*n - border; noise in stamps iff both borders >= 0; a forced size must match |
| ImageSetup.TiledFullSize | galsim/config/image.py:481-482 | the full size is n stamps plus n-1 borders |
| ImageSetup.SetupScattered | galsim/config/image.py:613-669 | nobjects from the section or the input, else error; size alone or both xsize and ysize, each other combination its own error; a forced size must match; success exactly when nobjects is known, the size is well formed and matches any forced size; a mismatch on otherwise valid input is ForcedSizeMismatch |
| ImageSetup.Lower | galsim/config/image.py:267-269 | str.lower() on ASCII letters, character by character |
| ImageSetup.LowerIdempotent | galsim/config/image.py:267-269 | lower-casing twice is lower-casing once |
| ImageSetup.IndexOrigin | galsim/config/image.py:264-272 | origin 0 for '0','c','python', 1 for '1','fortran','fits' or no convention, case-insensitively; anything else is an error |
| ImageSetup.IndexOriginCaseInsensitive | galsim/config/image.py:267-269 | two conventions with the same lower-case form give the same origin |
| ImageSetup.SetupGeometry | galsim/config/image.py:261-276 | origin from the convention; bounds [origin, origin+size-1] per axis; centre origin+(size-1)/2 |
| ImageSetup.GeometryCentred | galsim/config/image.py:275-276 | the centre is the midpoint of the bounds |
| ImageSetup.NObjFor | galsim/config/image.py:805-836 | 1 for Single; nx_tiles*ny_tiles for Tiled, which requires both; nobjects or the input count for Scattered, else error |
| ImageSetup.NObjForImage | galsim/config/image.py:791-802 | the type defaults to Single; an invalid type is an error; a valid type gives that type's count (NObjFor) for the section, or for an empty section when there is none |
| ImageSetup.TiledCountsAgree | galsim/config/image.py:531-533 | obj_num advances past a Tiled image by the number of stamps it draws |
| ImageSetup.ScatteredCountsAgree | galsim/config/image.py:711 | obj_num advances past a Scattered image by the number of stamps it draws |
| ImageSetup.FinalSteps | galsim/config/image.py:593-610 | Single adds nothing; Tiled adds sky and noise only when noise was not drawn in the stamps; Scattered always adds sky; noise is added last, at current_var, and only when the section has noise, so without noise the steps are sky alone (lines 745-758 for Scattered) |
| Bounds.Intersect | galsim/config/image.py:720 | `&` contains exactly the pixels of both operands |
| Bounds.IncludesIffEveryPixel | galsim/config/image.py:580 | `includes` holds iff every pixel of the stamp is in the image |
| Bounds.IntersectIncluded | galsim/config/image.py:720 | intersecting with an including image changes nothing |
| Shuffle.Clamp | galsim/random.py:842-843 | j <= i; j == i+1 becomes i, smaller j stay |
| Shuffle.ScheduleIndices | galsim/random.py:840-843 | step t swaps i = n-1-t, with 2 <= i < n and 0 <= j <= i |
| Shuffle.ApplySwapsAt | galsim/random.py:844-845 | after the swaps, position p holds the element from position Src(p) |
| Shuffle.ApplySwapsPermutes | galsim/random.py:844-845 | swaps keep the multiset of a list |
| Shuffle.SwapKeepsMultiset | galsim/random.py:845 | one swap keeps the multiset of a list |
| Shuffle.ApplySwapsSnoc | galsim/random.py:840-845 | performing one more swap at the end is swapping the result |
| Shuffle.SrcInjective | galsim/random.py:844-845 | different positions come from different sources |
| Shuffle.SrcOnto | galsim/random.py:841-845 | every source position in range ends up somewhere in range |
| Shuffle.ShuffledIsPermutation | galsim/random.py:841-845 | each list ends as a permutation of its input |
| Shuffle.ShortListsUnchanged | galsim/random.py:841 | lists of length n <= 2 are left unchanged |
| Shuffle.TailUntouched | galsim/random.py:840-845 | positions >= len(args[0]) of a longer list are never touched |
| Shuffle.Aligned | galsim/random.py:844-845 | the k-th elements of two lists after the call both come from the same input position |
| Shuffle.SwapInEach | galsim/random.py:844-845 | one step swaps i and j in each list, stopping at the first list too short for i |
| Shuffle.StepList | galsim/random.py:840-845 | after step t a list holds the first t+1 swaps of the schedule applied to it |
| Shuffle.SwapLoop | galsim/random.py:840-845 | the loop shuffles every list by the schedule when all are long enough; otherwise the first step stops at the first short list, having swapped the lists before it |
| Shuffle.SwapRest | galsim/random.py:840-845 | the steps after the first apply the rest of the schedule to each list |
| Shuffle.Permute | galsim/random.py:824-845 | no lists is an error; otherwise each list is shuffled by the same schedule, or an index error stops the call at the first short list |
| Shuffle.AsWrittenMissesOrder | galsim/random.py:841 | with the loop stopping at i = 2, [0, 1, 2] never becomes [1, 0, 2], whatever the draws |
| Shuffle.FullScheduleCons | galsim/random.py:838-845 | the full Knuth loop for n is the swap of n-1 with the first draw, then the full loop for n-1 |
| Shuffle.SubPerm | galsim/random.py:838-845 | the order left to produce on [0, n-1) after the last position is fixed is itself an order |
| Shuffle.DrawsFor | galsim/random.py:838-845 | draws in range for every step of the full Knuth loop |
| Shuffle.DrawsForSrc | galsim/random.py:838-845 | under DrawsFor(perm) the full loop sends input position perm[p] to position p |
| Shuffle.FullShuffleReachesEveryOrder | galsim/random.py:838-845 | the full Knuth loop, i = n-1 down to 1, reaches every order of a list |
| Shuffle.KnuthShuffle | galsim/random.py:838-845 | the corrected loop in place on one list leaves it as the full schedule applied to it |
| Compose.ParseOrder | galsim/config/image.py:536-552 | order is lower-cased and read by prefix row, col, rand, in that order; default row; anything else is InvalidOrder |
| Compose.RowListOnce | galsim/config/image.py:540-542 | row order visits each tile of the grid exactly once |
| Compose.RowListInGrid | galsim/config/image.py:540-542 | every tile of row order lies in the grid |
| Compose.RowListDistinct | galsim/config/image.py:540-542 | row order has no tile twice |
| Compose.RowListCovers | galsim/config/image.py:540-542 | row order has every tile of the grid |
| Compose.RowListSteps | galsim/config/image.py:540-542 | row order starts at (0,0) and moves along x, wrapping to the next row |
| Compose.RowListEnds | galsim/config/image.py:540-542 | row order starts at (0,0) and ends at (nx-1, ny-1) |
| Compose.RowListStep | galsim/config/image.py:540-542 | each step of row order moves along x or to the start of the next row |
| Compose.TransposedOnce | galsim/config/image.py:543-548 | swapping axes keeps the visit-once property with the grid transposed |
| Compose.ColListOnce | galsim/config/image.py:543-545 | column order visits each tile exactly once |
| Compose.ColListSteps | galsim/config/image.py:543-545 | column order starts at (0,0) and moves along y, wrapping to the next column |
| Compose.ShuffledOnce | galsim/config/image.py:546-550 | a shuffled order still visits each tile exactly once |
| Compose.ShuffleInStep | galsim/config/image.py:546-550 | shuffling the ix and iy lists in step is shuffling the list of tiles |
| Compose.TileOrder | galsim/config/image.py:535-552 | the ix, iy lists are row order, column order or column order shuffled; each tile appears exactly once; an unknown order is an error |
| Compose.TileCentres | galsim/config/image.py:556-568 | each centre is x0 + ix*dx, y0 + iy*dy |
| Compose.CentreOfTile | galsim/config/image.py:556-559 | each centre is the midpoint of its tile's box |
| Compose.TileInImage | galsim/config/image.py:481-482 | with non-negative borders every tile lies inside the full image |
| Compose.TilesDisjoint | galsim/config/image.py:556-559 | with non-negative borders different tiles share no pixel |
| Compose.FirstUncontained | galsim/config/image.py:574-580 | the first defined stamp the image does not include; all earlier ones are skipped or included |
| Compose.SkippedAddsNothing | galsim/config/image.py:576 | a stamp with undefined bounds adds nothing |
| Compose.TiledStampsContained | galsim/config/image.py:574-582 | stamps drawn on tiles with non-negative borders never trip the containment assertion |
| Compose.CompositeTiled | galsim/config/image.py:574-582 | every pixel gains the stamps up to the first uncontained one; the call succeeds iff there is none |
| Compose.ClippedSum | galsim/config/image.py:720-722 | inside the image, adding stamp ∩ image is the same as adding the stamp |
| Compose.CompositeScattered | galsim/config/image.py:717-734 | each pixel of the image gains exactly the stamps that cover it; a stamp off the image changes nothing |
| Compose.ScatteredPositions | galsim/config/image.py:692-704 | both image_pos and world_pos is an error; with neither, positions are uniform over the image bounds |
| Canvas.Image.constructor | galsim/config/image.py:512-518 | a fresh image of the given origin and size, all zero |
| Canvas.Image.ImageBounds | galsim/config/image.py:276 | the image's bounds contain exactly its pixels |
| Canvas.Image.AddRegion | galsim/config/image.py:582 | `image[b] += f`: every pixel of b gains f there; others are unchanged |
| Canvas.Image.AddRow | galsim/config/image.py:582 | one row of `image[b] += f` |
| Canvas.Image.Max | galsim/config/image.py:779 | numpy.max: the largest pixel and a pixel that has it |
| Canvas.Image.AddPointwise | galsim/config/image.py:784-786 | every pixel gains a function of itself and another image's pixel there |
| Noise.SeqMax | galsim/config/image.py:764 | max() of a non-empty list: an upper bound that is attained |
| Noise.VarSumAtLeast | galsim/config/image.py:774-776 | with non-negative variances a pixel has at least the variance of each stamp covering it |
| Noise.VarSumNonneg | galsim/config/image.py:774-776 | with non-negative variances the map is non-negative |
| Noise.VarSumUncovered | galsim/config/image.py:774-776 | a pixel no stamp covers has variance 0 |
| Noise.FlatLevel | galsim/config/image.py:779-784 | each deficit max - map is >= 0 and map + deficit == max; max bounds every overlapping stamp's variance |
| Noise.AccumulateVariance | galsim/config/image.py:773-776 | the noise image gains, at each pixel, the variances of the stamps covering it |
| Noise.FlattenNoiseVariance | galsim/config/image.py:761-788 | max <= 0 leaves the image and returns max(vars); otherwise returns the map's maximum and adds noise of variance maximum - map at each pixel; no variances is an error |
| Noise.AddFlatNoise | galsim/config/image.py:773-787 | the returned level is the largest variance of any pixel, and each pixel gains noise of variance level - map |
| Noise.VarianceMap | galsim/config/image.py:773-779 | a fresh noise image holding each pixel's variance, and its maximum |
| Config.WithDefaults | galsim/config/image.py:239-242 | draw_method defaults to auto and type to Single; nothing else changes |
| Config.Config.SetupConfigImageNum | galsim/config/image.py:214-242 | sets image_num, obj_num, index_key; creates an empty section; a non-dict section is an error; fills in the defaults |
| Config.Config.SetupConfigImageSize | galsim/config/image.py:245-276 | records the size, then the geometry of the index convention, or its error |
| Config.Config.SetupImage | galsim/config/image.py:304-327 | type from the original section, then SetupConfigImageNum (image_num, obj_num and index_key recorded), the type's setup and SetupConfigImageSize with its size; an invalid type changes nothing; the tile layout and nobjects change only for their own type; image_pos and current_var stay |
| Config.Config.SetupType | galsim/config/image.py:322-323 | the type's setup function: the Single section rewrite, the Tiled layout or the Scattered object count, and the image size, or that function's error; nothing else changes |
| Config.FinishTiled | galsim/config/image.py:574-590 | stamps composited under the assertion, then flattened if asked; current_var 0 otherwise |
| Config.FinishScattered | galsim/config/image.py:717-742 | stamps composited over their overlap, then flattened if asked; current_var 0 otherwise |
| Config.FlattenBatch | galsim/config/image.py:584-589 | flattening, when asked, leaves each pixel at its stamps' sum plus the noise to the flat level, and the level is the largest pixel variance; current_var is 0 when not asked |
| Config.TilePositions | galsim/config/image.py:535-568 | the image_pos centres are those of the tiles in the requested order; an unknown order is an error |
| Config.Config.BuildTiledImage | galsim/config/image.py:500-590 | a zeroed image of the set-up size; the tile centres in the requested order are written as image_pos; the stamps drawn there are composited, and the noise flattened when not drawn in the stamps; image_num, obj_num, index_key, nobjects, the sizes, geometry and tile layout stay |
| Config.Config.BuildScatteredImage | galsim/config/image.py:672-742 | a zeroed image of the set-up size; uniform positions over the image unless given; each stamp's overlap is composited, and the noise flattened when asked for; image_num, obj_num, index_key, nobjects, the sizes, geometry and tile layout stay |

## Left out

- Multiprocessing: processes, queues, STOP sentinels, `terminate` and `join`. The dispatcher is sequential over an arbitrary arrival order of the chunks.
- Logging, timing and the logger proxy.
- Dispatch.RunTask: the worker's size lookup `ys, xs = im[0].array.shape` at line 68 runs for every image, outside the logging guard and inside the `try`. RunTask, and so BuildParallel and BranchesAgree, assume it never raises. Dispatch.RunTaskAsWritten models the lookup; see Findings.
- Dispatch.BuildImages: the object counts are an input. `GetNObjForImage` raising inside the task loop or the worker is not modelled.
- Dispatch.ChunkSize: floating-point rounding of `int(math.sqrt(float(max_nim)/float(min_nim)))` for huge values is not modelled. The exact integer square root is used.
- Dispatch.BuildImages: when nproc > 1 a Ring num <= 0 gives `BadRingNum`. In Python this is the division by zero or the domain error it raises.
- Shuffle.Permute: the lists must be distinct arrays. Passing the same list twice, which Python allows, is not modelled.
- Shuffle.Permute: the deviates are an input sequence of integers in `[0, i+1]`. The floating-point `int((i+1)*u)` is not modelled.
- The external config machinery is not modelled. ParseValue and GetAllParams are replaced by an already-parsed section. BuildWCS, AddSky, AddNoise, ProcessInputNObjects, SetupConfigRNG and the input and extra-output hooks are also left out.
- BuildSingleImage is not modelled: its result is whatever BuildSingleStamp draws, which is external.
- The sequencing in BuildImage after setup is not modelled: storing current_image, deleting the top-level image_pos, and calling the noise function. The steps the noise function takes are `ImageSetup.FinalSteps`.
- ImageSetup.NObjFor: the writes of index_key and image_num into the config by GetNObjForTiledImage and GetNObjForScatteredImage are not modelled.
- ImageSetup.SetupTiled: the config keys it writes before it raises (nx_tiles, tile_xsize, ...) are not modelled. The model stores the layout only on success.
- ImageSetup.SetupScattered: `config['nobjects']` is written at line 636, before the size checks that may raise. The model stores nobjects only on success.
- Config.Config.BuildTiledImage: negative tile counts give empty tile lists, as `range` does. Their product, which BuildStamps receives in Python, is not modelled.
- Config.Config.BuildTiledImage and Config.Config.BuildScatteredImage: a negative image size gives `NegativeCanvasSize`. In Python the error comes from the image constructor, which is not part of this model.
- Pixel rendering is not modelled. A stamp is its bounds and a function giving its pixel values.
- VariableGaussianNoise sampling is the oracle `gauss`. Pixel values are reals, not 32-bit floats.
- ImageSetup.Lower: lower-casing covers ASCII letters only.
- The deviate classes and DistDeviate of galsim/random.py are not part of this model.
- Python integers are unbounded, and so are Dafny's. No width is modelled.

## Findings

| source | as written | input that shows it | evidently intended | confidence | as-written member | corrected member |
|---|---|---|---|---|---|---|
| galsim/config/image.py:68 | the worker looks up `im[0].array.shape` for every image, outside the logging guard and inside the `try`, so any exception there becomes the chunk's error | nproc > 1 and images that build but on which `im[0]` raises; BuildImage returns a single Image (lines 299, 362); the serial branch returns the images, the parallel branch an error | the lookup on `im` itself and only under the logging guard, as the serial loop does at lines 200-202 | low; not executed; whether `im[0]` raises depends on Image indexing, which is not part of this model | Dispatch.RunTaskAsWritten, Dispatch.ShapeLookupBreaksAgreement | Dispatch.RunTask, Dispatch.BranchesAgree |
| galsim/random.py:841 | `range(n-1, 1, -1)` stops at i = 2, so the Knuth shuffle's step for i = 1 never runs | the list [0, 1, 2]: [1, 0, 2] is never produced, whatever the draws; a two-element list is never swapped | `range(n-1, 0, -1)`, the Knuth shuffle named at lines 838-839, which reaches every order | medium; not executed | Shuffle.AsWrittenMissesOrder | Shuffle.KnuthShuffle, Shuffle.FullShuffleReachesEveryOrder |

The tile order (`Compose.TileOrder`) keeps `permute` as written, since
that is the order the program produces; the corrected shuffle stands
beside it.

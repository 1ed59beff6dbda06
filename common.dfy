/** Option and Result wrappers, and the errors the image layer raises.
    Each Error variant stands for one raise site (or one exception an
    external call is documented to raise) in galsim/config/image.py and
    galsim/random.py. */
module Common {

  datatype Option<+T> = None | Some(value: T) {
    function GetOr(default: T): T {
      match this
      case Some(v) => v
      case None => default
    }
  }

  datatype Result<+T> = Ok(value: T) | Err(error: Error) {
    predicate IsFailure() { Err? }
    function PropagateFailure<U>(): Result<U>
      requires Err?
    {
      Err(error)
    }
    function Extract(): T
      requires Ok?
    {
      value
    }
  }

  datatype Error =
    | InvalidImageType(name: string)        // image.type not one of Single, Tiled, Scattered
    | ImageNotDict                          // config.image exists but is not a dict
    | UnknownIndexConvention(conv: string)  // image.index_convention not recognised
    | OneSizeZero                           // Single: exactly one of xsize, ysize is 0
    | MissingTiles                          // Tiled: nx_tiles or ny_tiles not given
    | ZeroStampSize                         // Tiled: stamp_xsize or stamp_ysize is 0
    | ForcedSizeMismatch                    // computed size differs from image_force_[xy]size
    | MissingNObjects                       // Scattered: no nobjects and no input catalog count
    | MissingSize                           // Scattered: neither size nor both xsize and ysize
    | SizeWithXSize                         // Scattered: size given together with xsize
    | SizeWithYSize                         // Scattered: size given together with ysize
    | BothPositions                         // Scattered: both image_pos and world_pos
    | InvalidOrder                          // Tiled: order is not row*, col* or rand*
    | StampNotContained                     // Tiled: the containment assertion fails
    | NegativeCanvasSize                    // a canvas with a negative dimension
    | EmptyMax                              // max() of an empty sequence
    | NoLists                               // permute called with no lists
    | ListTooShort                          // permute: a list shorter than the first one
    | BadRingNum                            // Ring num <= 0 (division by zero / sqrt of a negative)
    | StampsFailed                          // the external stamp builder raised
    | ImageFailed(imageNum: int)            // BuildImage raised for this image number
    | ShapeLookupFailed                     // the worker's im[0].array.shape raised
}

/**
 * The error kinds of the codec (the `PngError` enumeration) and the result
 * type its fallible operations return.
 */
module Errors {

  /** The variants of `PngError`; the foreign `IOError(io::Error)` is not modelled. */
  datatype PngError =
    | ChunkTypeError
    | ChunkError
    | CRCError
    | ChunkHeaderError
    | NotFoundChunkType

  /** `Result<T, PngError>`: a value or one of the error kinds above. */
  datatype Result<+T> = Ok(value: T) | Err(error: PngError)
}

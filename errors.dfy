/** The error values of the library and the `Result`/`Option` wrappers used for fallible operations. */
module Errors {
  datatype Option<T> = None | Some(value: T)

  /** The outcome of an operation that asserts its arguments: its value, or a panic. */
  datatype Checked<T> = Done(value: T) | Panics

  datatype Error =
    | CoordinatesOutOfRegionBounds(x: int, z: int)
    | ChunkOutOfRegionBounds(cx: int, cz: int)
    | OutOfBounds(len: int, index: int)
    | InvalidNbtType(what: string)
    | InvalidNbtList(what: string)
    | MissingNbtTag(tag: string)
    | NoSectionFound(sectionY: int)
    | NoChunk(cx: int, cz: int)
    | TriedToModifyMissingChunk(cx: int, cz: int)
    | NotFullyGenerated(chunk: (int, int), status: string)
    | UnsupportedVersion(chunk: (int, int), dataVersion: int)
    | InvalidPaletteIndex(index: int)
    | NotInBlockPalette
    | NotInBiomePalette(id: string)
    | UnsetPaletteBlock(index: int)
    | InvalidOperation(message: string)

  datatype Result<T> = Ok(value: T) | Err(error: Error)
  {
    predicate IsFailure() { Err? }

    function PropagateFailure<U>(): Result<U>
      requires Err?
    {
      Err(error)
    }

    function Extract(): T
      requires Ok?
    {
      value
    }
  }
}

/** Failure-carrying result types shared by every module, and the faults the
    three programs can stop with. */
module Wrappers {

  datatype Option<+T> = None | Some(value: T)

  datatype Result<+T, +E> = Ok(value: T) | Err(error: E)

  /** Success without a value, or a failure. */
  datatype Outcome<+E> = Pass | Fail(error: E)

  /** Why a run stops.  Go's log.Fatal, a returned error that _main turns into
      log.Fatal, and a runtime panic (index or slice out of range) all end the
      run; the constructor says which check fired. */
  datatype Fault =
    | BadHeaderJson                            // sloppyjson.Loads failed on a '>' line
    | MissingTileIdPart(tileId: string)        // tile_parts[k] out of range
    | BadHexToken(token: string)               // strconv.ParseInt(_, 16, 64) failed
    | TileTooShort(length: nat)                // a slice of the tile sequence is out of range
    | HashMismatch(declared: string, actual: string)
    | LookupMiss(md5sum: string)               // md5sum absent from the Sequence map
    | MissingColumn(lineNo: int)               // CSV row has too few fields
    | BadDecimal(lineNo: int, token: string)   // strconv.ParseInt(_, 10, 64) failed
    | BadTagsetLine(lineNo: int)               // tile-set row is not exactly two fields
    | MissingPartition(position: string)       // tile position has no '.' separator
    | SliceOutOfRange(start: int, end: int)    // g_seq[sp:ep] out of range
}

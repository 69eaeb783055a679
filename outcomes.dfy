/** Failure-compatible result type shared by the decoder, and the reasons a decode is abandoned.
    In the Java decoder every one of these ends in the catch-all of `open`, which returns an
    empty bundle; the model keeps the reason so that contracts can say which path was taken. */
module Outcomes {

  datatype Error =
    | Truncated                      // a read ran past the end of the bytes (EOFException)
    | UnknownHeaderSize(size: bv32)  // first int is neither 348 nor 540 in either byte order
    | BadMagic                       // NIfTI-2 magic is not "ni2\0" / "n+2\0"
    | RankOutOfRange(rank: int)      // rank still outside [0,7] after the swap decision
    | NegativeLength(axis: nat)      // a dimension length is negative; the grid cannot be allocated
    | BitTypeNotHere                 // type code 1 reached the general voxel dispatch
    | UnknownVoxelType(code: int)    // type code outside the table
    | BadBufferSize                  // the quad-precision scratch buffer is not 16 bytes long
    | MissingCompanion               // dual-file layout without the companion data bytes
    | NoAxisZero                     // the packed-bit fill needs an axis 0
    | NotFinite                      // BigDecimal.valueOf met a NaN or an infinity

  datatype Result<+T> = Success(value: T) | Failure(error: Error) {
    predicate IsFailure() { Failure? }

    function PropagateFailure<U>(): Result<U>
      requires Failure?
    {
      Failure(error)
    }

    function Extract(): T
      requires Success?
    {
      value
    }
  }
}

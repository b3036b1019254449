/** Failure-carrying results for the encoder: every place where the original
    engine throws a RangeError becomes a `Failure` carrying the error kind. */
module Wrappers {

  /** The engine's "Infinity" sentinel and optional values. */
  datatype Option<+T> = None | Some(value: T)

  /** The RangeError messages of the engine, one constructor each. */
  datatype Error =
    | ByteOutOfRange       // reedSolomonMultiply: an operand is not a byte
    | ValueOutOfRange      // appendBits: length or value out of range
    | DataTooLong          // encodeSegments: no version up to the maximum fits
    | InvalidDataLength    // addEccAndInterleave / drawCodewords: wrong codeword count
    | MaskOutOfRange       // applyMask: mask outside 0..7

  datatype Result<+R> = Success(value: R) | Failure(error: Error) {
    predicate IsFailure() { Failure? }

    function PropagateFailure<U>(): Result<U>
      requires Failure?
    {
      Failure(error)
    }
  }

  /** A result that carries no value: the outcome of a statement that may throw. */
  datatype Outcome = Pass | Fail(error: Error) {
    predicate IsFailure() { Fail? }

    function PropagateFailure<U>(): Result<U>
      requires Fail?
    {
      Failure(error)
    }
  }
}

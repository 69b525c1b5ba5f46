/** Vocabulary shared by every module: bytes, machine bounds, optional values and results. */
module Basics {
  type byte = x: int | 0 <= x < 256
  type Bytes = seq<byte>

  const U16_MAX: nat := 0xFFFF
  const U32_MAX: nat := 0xFFFF_FFFF
  const U64_MAX: nat := 0xFFFF_FFFF_FFFF_FFFF

  /** The state of an open instance, from best to worst. */
  datatype Health = Healthy | WriteStopped | Poisoned

  datatype Option<+T> = None | Some(value: T)

  /** The storage error kinds that the modelled code branches on. */
  datatype ErrorKind =
    | InvalidArgument
    | CapacityExceeded
    | Corruption
    | InvalidLayout
    | IncompatibleFormat
    | Io

  datatype Result<+T> = Ok(value: T) | Err(error: ErrorKind) {
    predicate IsFailure() {
      Err?
    }

    function PropagateFailure<U>(): (r: Result<U>)
      requires Err?
    {
      Err(error)
    }

    function Extract(): (t: T)
      requires Ok?
    {
      value
    }
  }
}

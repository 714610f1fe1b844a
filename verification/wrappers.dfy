/** Failure-compatible Option and Result types, and the error kinds that the
    Java code raises as exceptions (EOFException, ClassCastException,
    NoSuchElementException, NegativeArraySizeException, ...). */
module Wrappers {

  datatype Option<+T> = None | Some(value: T) {
    predicate IsFailure() { None? }

    function PropagateFailure<U>(): Option<U>
      requires None?
    {
      None
    }

    function Extract(): T
      requires Some?
    {
      value
    }
  }

  /** The error taxonomy of the model.  Each constructor names the Java
      exception it stands for. */
  datatype Error =
    | EndOfInput                  // EOFException: the stream is truncated
    | UnknownTagType(id: int)     // TagType.forId on an id outside 1..11
    | NegativeSize(size: int)     // NegativeArraySizeException / IllegalArgumentException
    | SizeOverflow(size: int)     // `length << 2` overflowing in TagArrayInt
    | AbsentValue(key: seq<int>)  // NoSuchElementException from TagCompound.getTag
    | TypeMismatch                // ClassCastException from a strict accessor or cast
    | IndexOutOfBounds(index: int)
    | NullChunk                   // a null dereference: the chunk does not exist
    | CorruptData                 // the inflater rejected a compressed payload
    | AssertionFailed             // AssertionError from a Java `assert` (run with -ea)

  datatype Result<+T> = Ok(value: T) | Err(error: Error) {
    predicate IsFailure() { Err? }

    function PropagateFailure<U>(): Result<U>
      requires Err?
    {
      Err(error)
    }

    function Extract(): T
      requires Ok?
    {
      value
    }
  }
}

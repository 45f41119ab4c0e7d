/** Values standing in for Java's `null` and for the exceptions the graph throws. */
module Outcomes {

  /** An optional value; `None` plays the part of a Java `null` argument or "no match". */
  datatype Option<T> = None | Some(value: T)

  /** The exceptions raised by the graph, one constructor per Java exception class. */
  datatype Failure =
    | NullPointer       // java.lang.NullPointerException
    | IllegalArgument   // java.lang.IllegalArgumentException
    | IndexOutOfBounds  // java.lang.IndexOutOfBoundsException (pattern.get(0) on an empty pattern)

  /** Either the value an operation returns or the exception it throws. */
  datatype Result<R> = Ok(value: R) | Err(error: Failure)
}

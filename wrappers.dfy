/** Option and Result: a `null` return and a thrown exception of the Java source,
    written as values. */
module Wrappers {

  /** `None` stands for a Java `null`. */
  datatype Option<+T> = None | Some(value: T)

  /** `Failure` stands for a `RuntimeException` the Java code throws, with its message. */
  datatype Result<+T> = Success(value: T) | Failure(error: string)
}

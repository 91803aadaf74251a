/** Option and Result, used for Java's null returns and for illegal-argument failures. */
module Wrappers {

  /** `None` stands for a Java `null` (or a NaN sentinel). */
  datatype Option<+T> = None | Some(value: T)

  /** `Err` stands for an exception the source throws on a caller's mistake. */
  datatype Result<+T, +E> = Ok(value: T) | Err(error: E)
}

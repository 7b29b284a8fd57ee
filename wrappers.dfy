/** Optional values and results with an error, used where the source has null references or throws. */
module Wrappers {

  /** `None` stands for a C# null reference. */
  datatype Option<+T> = None | Some(value: T)

  /** `Failure` stands for an exception the source lets escape. */
  datatype Result<+R, +E> = Success(value: R) | Failure(error: E)
}

/** Optional values and results: Java's nullable references, `Optional` and thrown exceptions. */
module Wrappers {

  /** `None` stands for Java's `null` or an empty `Optional`. */
  datatype Option<+T> = None | Some(value: T)

  /** `Failure` stands for an exception thrown to the caller. */
  datatype Result<+R, +E> = Success(value: R) | Failure(error: E)

  /** The exceptions the services let escape. */
  datatype Exception =
    | IllegalArgument(message: string)
    | NullPointer

  /** Message both services attach when a create request already carries a database id. */
  const AlreadyPersisted: string := "User has already DB ID, update is not permitted!"
}

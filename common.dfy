/** Values shared by every part of the backend model. */
module Common {

  /** JavaScript's `null`/`undefined` versus a present value. */
  datatype Option<+T> = None | Some(value: T)

  /** A value, or the error a JavaScript function would have thrown. */
  datatype Result<+T, +E> = Success(value: T) | Failure(error: E)

  /** A MongoDB ObjectId of a user document, kept opaque. */
  type UserId = string
}

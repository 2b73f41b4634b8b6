/** Optional values and success/failure results, the model's stand-ins for
    JavaScript's `undefined`/`null` and for a rejected promise. */
module Wrappers {

  /** `None` plays the part of `undefined` or `null`. */
  datatype Option<+T> = None | Some(value: T)

  /** The outcome of an asynchronous call: a value, or the thrown/rejected value. */
  datatype Result<+R, +E> = Success(value: R) | Failure(error: E)
}

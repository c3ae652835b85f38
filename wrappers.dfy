/** Optional values and the two ways an asynchronous service call can settle. */
module Wrappers {

  /** A value that may be absent (`null`/`undefined` in the component). */
  datatype Option<+T> = None | Some(value: T)

  /** How a service promise settles: with a value (`then`) or an error (`catch`). */
  datatype Outcome<+T> = Resolved(value: T) | Rejected(error: string)
}

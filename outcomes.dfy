/** Python values that say how an operation ended: `Option`, the exceptions the
    core can raise, and the outcome of an expression or a method that may raise. */
module Outcomes {

  datatype Option<+T> = None | Some(value: T)

  /** The exceptions the modelled code can raise: a failed dictionary lookup and
      indexing `[-1]` into an empty string or list. */
  datatype Exception = KeyError(key: string) | IndexError

  /** The value of an expression that may raise. */
  datatype Result<+T> = Ok(value: T) | Raised(error: Exception)

  /** The outcome of a method that may raise. */
  datatype Status = Done | Failed(error: Exception)
}

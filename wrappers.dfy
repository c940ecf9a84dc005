/** Optional values, and the exceptions the core throws, as values. */
module Wrappers {

  datatype Option<T> = None | Some(value: T)

  /** The exception classes thrown by the modelled PHP code. */
  datatype Error =
    | ChannelDoesNotExist
    | ChannelAlreadyExists
    | SubscriptionDoesNotExist
    | SubscriptionAlreadyExists
    | LogicException(message: string)
    | InvalidArgument(message: string)

  /** A call that returns a value or throws. */
  datatype Result<T> = Ok(value: T) | Err(error: Error)

  /** A call that returns nothing (or `$this`) or throws. */
  datatype Outcome = Pass | Fail(error: Error)
}

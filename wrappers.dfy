/** Failure-compatible wrappers shared by the whole model, and the kinds of
    exception the client can raise. */
module Wrappers {

  datatype Option<T> = None | Some(value: T)

  /** The Python exceptions that escape the client's operations. */
  datatype Error =
    | KeyError(key: string)              // `d[key]` on a dict without `key`
    | TypeError                          // subscripting or iterating a value that does not support it
    | AttributeError(attribute: string)  // `x.attribute` on a value that lacks it, e.g. `None.id`
    | ValidationError                    // a pydantic record rejected its keyword arguments
    | ValueError(message: string)        // raised explicitly by the client or the generators
    | TransportError                     // the HTTP request itself failed

  datatype Result<T> = Success(value: T) | Failure(error: Error) {
    predicate IsFailure() {
      Failure?
    }

    function PropagateFailure<U>(): Result<U>
      requires Failure?
    {
      Failure(error)
    }

    function Extract(): T
      requires Success?
    {
      value
    }
  }
}

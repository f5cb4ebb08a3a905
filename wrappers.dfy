/** Optional values and the outcomes the HTTP handlers answer with. */
module Wrappers {

  datatype Option<T> = None | Some(value: T)

  /** The response statuses the modelled handlers produce: 200, 400, 404
      and 500. Registration's 201 is the `Success` of its `Result`. */
  datatype Status = Ok | BadRequest | NotFound | ServerError

  /** A handler's result: a value on success, an error status otherwise. */
  datatype Result<T> = Success(value: T) | Failure(status: Status)
}

/** Option and Result values shared by every module of the model. */
module Wrappers {

  /** A value that may be absent: PHP's `null`, a missing array key, SQL "no row". */
  datatype Option<+T> = None | Some(value: T) {
    function GetOr(default: T): T {
      match this
      case Some(v) => v
      case None => default
    }
  }

  /** Either a value or an error: a validator's `['data' => …]` or `['error' => …]`,
      or a storage call that either returns or throws. */
  datatype Result<+T, +E> = Success(value: T) | Failure(error: E)
}

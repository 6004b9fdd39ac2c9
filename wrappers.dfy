/** Option and Result: the error paths of the modelled code
    (Python's None returns and raised exceptions) as values. */
module Wrappers {

  datatype Option<+T> = None | Some(value: T) {
    function GetOr(default: T): T {
      match this
      case Some(v) => v
      case None => default
    }
  }

  datatype Result<+R, +E> = Success(value: R) | Failure(error: E)

  /** Python `bytes` and file contents read in binary mode. */
  type Bytes = seq<bv8>
}

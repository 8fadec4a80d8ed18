/** Success-or-failure values used where the programs return `Option`, `Result`, `undefined` or an error. */
module Wrappers {
  datatype Option<+T> = None | Some(value: T) {
    function Or(default: T): T {
      match this
      case Some(v) => v
      case None => default
    }
  }

  datatype Result<+T, +E> = Ok(value: T) | Err(error: E)
}

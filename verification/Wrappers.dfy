/** Option and Result, shared by the modules that model optional fields and thrown errors. */
module Wrappers {
  datatype Option<+T> = None | Some(value: T) {
    /** The TypeScript `??` operator. */
    function GetOr(default: T): T {
      match this
      case Some(v) => v
      case None => default
    }
  }

  datatype Result<+T, +E> = Ok(value: T) | Err(error: E)
}

/** Option and Result, the two failure-carrying datatypes the model uses.
    Option<T> stands for a nullable Java or TypeScript value (None is null or
    undefined); Result<T> stands for a Java method that returns a value or
    throws a RuntimeException carrying a message. */
module Wrappers {

  datatype Option<+T> = None | Some(value: T) {
    function GetOr(default: T): T {
      match this
      case Some(v) => v
      case None => default
    }
  }

  datatype Result<+T> = Ok(value: T) | Err(message: string)
}

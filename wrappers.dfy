/** Option and Result values used where the Java code returns null or throws. */
module Wrappers {
  datatype Option<T> = None | Some(value: T)
  {
    function GetOr(default: T): T
    {
      if Some? then value else default
    }
  }

  /** The Java exceptions the modelled code raises or runs into. */
  datatype Failure =
    | IllegalState(msg: string)
    | IllegalArgument(msg: string)
    | NullPointer
    | IndexOutOfBounds(index: int, size: int)
    /** A message cast to a class it is not an instance of. */
    | ClassCast

  datatype Result<T> = Ok(value: T) | Err(error: Failure)

  /** The outcome of a void Java method that may throw. */
  datatype Outcome = Pass | Fail(error: Failure)
}

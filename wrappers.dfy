/** Result shapes shared by the whole model. */
module Wrappers {
  /** Kotlin's nullable value. */
  datatype Option<+T> = None | Some(value: T)

  /**
   * What a Kotlin call that may return null or throw gives back:
   * a value, `null`, or an exception that escapes the call.
   */
  datatype Outcome<+T> = Ok(value: T) | Null | Thrown
  {
    function Map<U>(f: T -> U): (r: Outcome<U>)
      ensures r.Ok? == this.Ok? && r.Null? == this.Null?
    {
      match this
      case Ok(v) => Ok(f(v))
      case Null => Null
      case Thrown => Thrown
    }
  }
}

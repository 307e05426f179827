/** The optional value used wherever the source reads a field that may be
    missing (`undefined`/`null`) or looks a key up in a `Map`. */
module Wrappers {

  datatype Option<T> = None | Some(value: T)
  {
    /** `x ?? default`: the value when present, otherwise the default. */
    function GetOr(default: T): T
    {
      match this
      case Some(v) => v
      case None => default
    }
  }
}

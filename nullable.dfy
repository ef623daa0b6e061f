/** C# references that may be `null` (strings, arrays, decoded records) are modelled as Option. */
module Nullable {

  datatype Option<+T> = None | Some(value: T) {

    /** The `??` operator: the value when there is one, otherwise the fallback. */
    function GetOr(fallback: T): (r: T)
      ensures Some? ==> r == value
      ensures None? ==> r == fallback
    {
      match this
      case Some(v) => v
      case None => fallback
    }
  }
}

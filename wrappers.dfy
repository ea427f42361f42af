/** Optional values: an absent record property, a `find` that found nothing. */
module Wrappers {

  datatype Option<+T> = None | Some(value: T) {

    /** The value, or `default` when absent. On a string whose default is ""
      * this is JavaScript's `x || ""`: an empty value and a missing one both
      * give "". */
    function GetOr(default: T): T
    {
      match this
      case Some(v) => v
      case None => default
    }
  }
}

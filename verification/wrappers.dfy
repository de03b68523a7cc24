/** Swift optionals. */
module Wrappers {

  datatype Option<+T> = None | Some(value: T) {

    /** `self ?? fallback` */
    function GetOr(fallback: T): T {
      match this
      case Some(v) => v
      case None => fallback
    }
  }
}

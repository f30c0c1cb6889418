/** Optional values: `None` stands for JavaScript's `undefined`/`null`
    (or for a call that throws, where a member says so). */
module Wrappers {

  datatype Option<+T> = None | Some(value: T) {

    /** The value, or `default` when absent (JavaScript's `??`). */
    function GetOr(default: T): T {
      match this
      case Some(v) => v
      case None => default
    }
  }
}

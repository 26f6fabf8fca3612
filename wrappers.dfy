/** Option stands for a JavaScript value that may be `undefined` or `null`. */
module Wrappers {

  datatype Option<+T> = None | Some(value: T) {

    /** The value, or `default` when there is none (a request `id` spread over `Date.now()`). */
    function GetOr(default: T): T
    {
      if Some? then value else default
    }
  }
}

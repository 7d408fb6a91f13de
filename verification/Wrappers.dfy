/** The option type used for the program's `undefined` and `null` values. */
module Wrappers {

  datatype Option<+T> = None | Some(value: T) {

    /** The JavaScript operator `??`: the value if there is one, the alternative otherwise. */
    function OrElse(other: T): T {
      if Some? then value else other
    }
  }

  /** `a ?? b` where `b` may be absent as well. */
  function FirstOf<T>(a: Option<T>, b: Option<T>): Option<T> {
    if a.Some? then a else b
  }
}

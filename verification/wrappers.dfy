/** Optional values, usable with `:-` in functions. */
module Wrappers {

  /** A value that may be missing: `null`/`undefined` on the JavaScript side. */
  datatype Option<+T> = None | Some(value: T) {

    predicate IsFailure() {
      None?
    }

    function PropagateFailure<U>(): Option<U>
      requires None?
    {
      None
    }

    function Extract(): T
      requires Some?
    {
      value
    }
  }
}

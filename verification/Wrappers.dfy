module Wrappers {

  /** A value that may be absent: JavaScript's null and undefined. */
  datatype Option<+T> = None | Some(value: T)

  /** `x ?? y`, where the fallback is present. */
  function OrElse<T>(x: Option<T>, y: T): T {
    if x.Some? then x.value else y
  }

  /** `x ?? y`, where the fallback may be absent too. */
  function OrOption<T>(x: Option<T>, y: Option<T>): Option<T> {
    if x.Some? then x else y
  }
}

/** A value that may be missing. */
module Options {
  datatype Option<+T> = None | Some(value: T)

  function OrElse<T>(a: Option<T>, b: T): T {
    if a.Some? then a.value else b
  }

  /** The first of two that is there. */
  function Either<T>(a: Option<T>, b: Option<T>): Option<T> {
    if a.Some? then a else b
  }
}

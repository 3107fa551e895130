/** Small shared datatypes. */
module Common {

  /** A value that may be absent: JavaScript's `undefined` result of `find`, or a `null` ref. */
  datatype Option<T> = None | Some(value: T)
}

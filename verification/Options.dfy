/** A value or nothing, for pointers that may be null. */
module Options {
  datatype Option<T> = None | Some(value: T)
}

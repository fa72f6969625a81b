/** A value that may be missing: a NULL pointer, an unset field. */
module Options {
  datatype Option<+T> = None | Some(value: T)
}

/** A value that may be missing: a nil pointer, or the zero value of a map lookup. */
module Options {
  datatype Option<+T> = None | Some(value: T)
}

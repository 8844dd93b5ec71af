/** A value that may be absent: SQL NULL, a nil pointer, a lookup without a match. */
module Options {
  datatype Option<+T> = None | Some(value: T)
}

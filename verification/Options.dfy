/** A value that may be missing: a NULL column, a row that was not found. */
module Options {
  datatype Option<+T> = None | Some(value: T)
}

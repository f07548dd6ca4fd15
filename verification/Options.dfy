/** A value that may be absent: a NULL column, a missing filter, a failed lookup. */
module Options {
  datatype Option<T> = None | Some(value: T)
}

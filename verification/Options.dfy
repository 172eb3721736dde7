/** An optional value, for Go's (value, found) and (value, err) pairs. */
module Options {
  datatype Option<T> = None | Some(value: T)
}

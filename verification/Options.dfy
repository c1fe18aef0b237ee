/** A value that may be missing: a null pointer, an empty slot, no request. */
module Options {
  datatype Option<T> = None | Some(value: T)
}

/** A value that may be missing: the source's nil, not-found and zero rows. */
module Options {
  datatype Option<+T> = None | Some(value: T)
}

/** A value that may be missing: a null pointer, a tag length of zero, an empty return. */
module Options {
  datatype Option<+T> = None | Some(value: T)
}

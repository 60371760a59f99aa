/** A value that may be missing: `undefined` or `null` in the source. */
module Options {
  datatype Option<+T> = None | Some(value: T)
}

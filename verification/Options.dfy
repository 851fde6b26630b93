/** A value that may be missing: `undefined` in the original. */
module Options {
  datatype Option<+T> = None | Some(value: T)
}

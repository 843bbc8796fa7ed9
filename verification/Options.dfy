/** A value that may be missing: `null`, `undefined`, an absent header or key. */
module Options {
  datatype Option<+T> = None | Some(value: T)
}

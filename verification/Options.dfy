/** An optional value: what may be missing, or may not be found. */
module Options {
  datatype Option<+T> = None | Some(value: T)
}

/** The source's `None`-able values. */
module Options {
  datatype Option<+T> = None | Some(value: T)
}

/** The conventional Some/None datatype, for the source's `None` values. */
module Options {
  datatype Option<+T> = None | Some(value: T)
}

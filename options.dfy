/** Python's `None`-or-value, as used for optional dictionary entries and parse results. */
module Options {
  datatype Option<+T> = None | Some(value: T)
}

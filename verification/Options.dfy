/** The optional value used for nullable columns. */
module Options {
  datatype Option<+T> = None | Some(value: T)
}

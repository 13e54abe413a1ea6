/** The optional value used wherever the repository stores a nullable column. */
module Options {
  datatype Option<+T> = None | Some(value: T)
}

/** The optional value used throughout the project for the source's null and undefined. */
module Options {
  datatype Option<+T> = None | Some(value: T)
}

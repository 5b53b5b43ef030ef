/** The optional value that Go writes as a pointer that may be nil. */
module Options {
  datatype Option<+T> = None | Some(value: T)
}

/** The optional value shared by the other modules: a C pointer that may be null. */
module Options {
  datatype Option<+T> = None | Some(value: T)
}

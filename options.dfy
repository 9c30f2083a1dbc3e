/** The optional value used for the password and the sniffed extension. */
module Options {
  datatype Option<+T> = None | Some(value: T)
}

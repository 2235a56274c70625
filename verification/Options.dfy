/** The optional values the tables and lookups of the server use. */
module Options {
  datatype Option<+T> = None | Some(value: T)
}

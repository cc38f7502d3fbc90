/** The optional value used wherever a handler may produce nothing. */
module Optional {
  datatype Option<T> = None | Some(value: T)
}

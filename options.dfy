/** The optional value used for the controller's timestamps. */
module Options {
  datatype Option<T> = None | Some(value: T)
}

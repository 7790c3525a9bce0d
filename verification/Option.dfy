// A value or none.
module Option {
  datatype Option<T> = None | Some(value: T)
}

// A value that may be missing, where the source uses nil or an extra boolean.
module Options {

  datatype Option<T> = None | Some(value: T)
}

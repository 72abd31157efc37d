// A value that may be missing: the source's empty string or nil.
module Options {
  datatype Option<+T> = None | Some(value: T)
}

// A value that may be absent: JavaScript's `undefined` for an optional prop
// or a host property.
module Options {
  datatype Option<+T> = None | Some(value: T)
}

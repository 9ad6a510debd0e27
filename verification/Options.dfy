// The usual value-or-nothing type, used for nullable columns and optional fields.
module Options {
  datatype Option<+T> = None | Some(value: T)
}

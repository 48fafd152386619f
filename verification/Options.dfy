// Optional values: a missing Redis key, a missing header, an absent driver or a nil error.
module Options {
  datatype Option<+T> = None | Some(value: T)
}

/** A reference that may be null, as a value. */
module Options {

  datatype Option<+T> = None | Some(value: T)
}

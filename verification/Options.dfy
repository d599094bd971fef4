/** A value or none: the source's null pointers and exceptions. */
module Options {
  datatype Option<+T> = None | Some(value: T)
}

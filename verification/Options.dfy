/** A value that may be missing: an absent key, a field that was popped, a call that returned nothing. */
module Options {
  datatype Option<+T> = None | Some(value: T)
}

/** An optional value, for what the sources express by a missing result or a null reference. */
module Options {
  datatype Option<T> = None | Some(value: T)
}

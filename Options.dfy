/** The optional value used where the pages hold `null` or a missing entry. */
module Options {
  datatype Option<T> = None | Some(value: T)
}

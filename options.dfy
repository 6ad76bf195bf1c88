/** The optional value used by the translators and the dispatcher. */
module Options {
  datatype Option<T> = None | Some(value: T)
}

/** The optional value used wherever the source returns null or "no match". */
module Options {
  datatype Option<T> = None | Some(value: T)
}

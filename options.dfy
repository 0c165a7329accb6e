/** The optional value used for the backing file and for parse results. */
module Options {
  datatype Option<+T> = None | Some(value: T)
}

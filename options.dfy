/** The optional value used wherever the source reads something that may be missing. */
module Options {

  datatype Option<+T> = None | Some(value: T)
}

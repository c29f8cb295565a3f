/** The optional value used wherever the dashboard may or may not hold something. */
module Options {

  datatype Option<+T> = None | Some(value: T)
}

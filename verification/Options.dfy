/** The one optional-value datatype every component model shares. */
module Options {
  datatype Option<+T> = None | Some(value: T)
}

/** The result of a search or a check that may have none. */
module Options {

  datatype Option<+T> = None | Some(value: T)
}

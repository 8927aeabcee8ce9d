/** The optional value used for the nullable columns and the partial steps of every other module. */
module Options {
  datatype Option<+T> = None | Some(value: T)
}

/** The absent-or-present value the models use for Go's nil and comma-ok results. */
module Options {
  datatype Option<+T> = None | Some(value: T)
}
